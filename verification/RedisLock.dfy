// redislock's client code, each call run without interference (redislock/lock.go, redislock/holder.go).
// RedisSteps interleaves the calls of any number of clients with each other and with the clock.

module RedisLock {
  import opened Wrappers
  import opened RedisKeys
  import opened RedisStore

  /** How a request over the network can end. */
  datatype Link = Fine | RequestLost | ReplyLost

  datatype Outcome = Acquired | Locked | Failed

  datatype ReleaseResult = Released | LockLost | ReleaseFailed | AlreadyReleased

  datatype ExtendResult = Extended | ExtendLost | ExtendFailed | NotHeld

  class Holder {
    const key: string
    const value: string
    const token: int
    const ttl: nat
    var released: bool

    constructor (key: string, value: string, token: int, ttl: nat)
      ensures this.key == key && this.value == value && this.token == token && this.ttl == ttl && !released
    {
      this.key, this.value, this.token, this.ttl, released := key, value, token, ttl, false;
    }

    /**
     * ReleaseContext: the first call runs the script and reports whether it found the holder's value; later
     * calls do nothing and report success.
     */
    method Release(server: Server, link: Link) returns (r: ReleaseResult)
      modifies this, server
      ensures released
      ensures old(released) ==> r == AlreadyReleased && server.View() == old(server.View())
      ensures !old(released) ==>
        && server.View() == (if link.RequestLost? then old(server.View()) else ReleaseScript(old(server.View()), key, value))
        && r == (if !link.Fine? then ReleaseFailed
                 else if Matches(old(server.View()), key, value) then Released else LockLost)
    {
      hide ReleaseScript, Matches;
      if released {
        return AlreadyReleased;
      }
      released := true;
      if link.RequestLost? {
        return ReleaseFailed;
      }
      var deleted := server.RunRelease(key, value);
      if link.ReplyLost? {
        return ReleaseFailed;
      }
      return if deleted == 0 then LockLost else Released;
    }

    /** Extend: refuses a released holder, otherwise runs the script and reports whether it found the value. */
    method Extend(server: Server, link: Link) returns (r: ExtendResult)
      modifies server
      ensures released ==> r == NotHeld && server.View() == old(server.View())
      ensures !released ==>
        && server.View() == (if link.RequestLost? then old(server.View())
                             else ExtendScript(old(server.View()), key, value, ExtendMillis(ttl)))
        && r == (if !link.Fine? then ExtendFailed
                 else if Matches(old(server.View()), key, value) then Extended else ExtendLost)
    {
      hide ExtendScript, Matches;
      if released {
        return NotHeld;
      }
      if link.RequestLost? {
        return ExtendFailed;
      }
      var extended := server.RunExtend(key, value, ExtendMillis(ttl));
      if link.ReplyLost? {
        return ExtendFailed;
      }
      return if extended == 0 then ExtendLost else Extended;
    }
  }

  /** The store after a grant: our value under the key, and the name's counter moved on unless INCR was lost or refused. */
  ghost predicate GrantedStore(before: Store, after: Store, prefix: string, name: string, slot: int, value: string,
                               ttl: nat, incr: Link, token: int)
  {
    var leased := SetNX(before, KeyFor(prefix, name, slot), value, ttl);
    && after == (if incr.RequestLost? then leased else Incr(leased, FenceKey(prefix, name)))
    && token == (if !incr.Fine? || IncrReply(leased, FenceKey(prefix, name)).None? then 0
                 else IncrReply(leased, FenceKey(prefix, name)).value)
  }

  /** acquireSlot: SET NX, then a separate INCR whose failure only costs the token. */
  method AcquireSlot(server: Server, prefix: string, name: string, slot: int, value: string, ttl: nat, setnx: Link, incr: Link)
    returns (r: Outcome, holder: Option<Holder>)
    modifies server
    ensures r.Acquired? <==> holder.Some?
    ensures r.Locked? ==> KeyFor(prefix, name, slot) in old(server.db) && server.View() == old(server.View())
    ensures r.Failed? <==> !setnx.Fine?
    ensures r.Failed? ==>
      server.View() == if setnx.RequestLost? then old(server.View())
                       else SetNX(old(server.View()), KeyFor(prefix, name, slot), value, ttl)
    ensures r.Acquired? ==>
      && KeyFor(prefix, name, slot) !in old(server.db)
      && holder.value.key == KeyFor(prefix, name, slot) && holder.value.value == value && holder.value.ttl == ttl
      && fresh(holder.value) && !holder.value.released
      && GrantedStore(old(server.View()), server.View(), prefix, name, slot, value, ttl, incr, holder.value.token)
  {
    hide SetNX, Incr, IncrReply, KeyFor, FenceKey;
    if setnx.RequestLost? {
      return Failed, None;
    }
    var got := server.SetIfAbsent(KeyFor(prefix, name, slot), value, ttl);
    if setnx.ReplyLost? {
      return Failed, None;
    }
    if !got {
      assert server.View() == old(server.View()) by { SetNXOnTaken(old(server.View()), KeyFor(prefix, name, slot), value, ttl); }
      return Locked, None;
    }
    var token := 0;
    if !incr.RequestLost? {
      var reply := server.Increment(FenceKey(prefix, name));
      if incr.Fine? && reply.Some? {
        token := reply.value;
      }
    }
    var h := new Holder(KeyFor(prefix, name, slot), value, token, ttl);
    return Acquired, Some(h);
  }

  lemma SetNXOnTaken(st: Store, key: string, value: string, ttl: nat)
    requires key in st.db
    ensures SetNX(st, key, value, ttl) == st
  {
  }

  /** The slots an acquire may try; -1 stands for singleton mode. */
  predicate InScan(n: int, slot: int) {
    if n <= 1 then slot == -1 else 0 <= slot < n
  }

  ghost predicate AllTaken(db: map<string, Entry>, prefix: string, name: string, n: int) {
    forall i :: 0 <= i < n ==> KeyFor(prefix, name, i) in db
  }

  /**
   * acquire: the first slot whose key is free is taken; Locked means that every slot's key was there. values holds
   * the fresh value of each attempt.
   */
  method Acquire(server: Server, prefix: string, name: string, n: int, cancelled: bool, values: seq<string>, ttl: nat,
                 setnx: seq<Link>, incr: Link)
    returns (r: Outcome, holder: Option<Holder>, ghost slot: int)
    requires |values| >= 1 && |values| >= n && |setnx| >= |values|
    modifies server
    ensures r.Acquired? <==> holder.Some?
    ensures r.Locked? ==> server.View() == old(server.View())
    ensures r.Locked? && n <= 1 ==> KeyFor(prefix, name, -1) in old(server.db)
    ensures r.Locked? && n > 1 ==> AllTaken(old(server.db), prefix, name, n)
    ensures cancelled ==> r.Failed? && server.View() == old(server.View())
    ensures r.Failed? && !cancelled ==>
      && InScan(n, slot) && AllTaken(old(server.db), prefix, name, slot)
      && (var i := if slot < 0 then 0 else slot;
          && !setnx[i].Fine?
          && server.View() == if setnx[i].RequestLost? then old(server.View())
                              else SetNX(old(server.View()), KeyFor(prefix, name, slot), values[i], ttl))
    ensures r.Acquired? ==>
      && InScan(n, slot)
      && AllTaken(old(server.db), prefix, name, slot)
      && KeyFor(prefix, name, slot) !in old(server.db)
      && holder.value.key == KeyFor(prefix, name, slot) && holder.value.value == values[if slot < 0 then 0 else slot]
      && GrantedStore(old(server.View()), server.View(), prefix, name, slot, holder.value.value, ttl, incr, holder.value.token)
  {
    hide SetNX, GrantedStore, KeyFor;
    holder, slot := None, -1;
    if cancelled {
      return Failed, None, slot;
    }
    if n <= 1 {
      r, holder := AcquireSlot(server, prefix, name, -1, values[0], ttl, setnx[0], incr);
      return;
    }
    var i := 0;
    while i < n
      invariant 0 <= i <= n
      invariant server.View() == old(server.View())
      invariant AllTaken(old(server.db), prefix, name, i)
    {
      r, holder := AcquireSlot(server, prefix, name, i, values[i], ttl, setnx[i], incr);
      if r.Acquired? {
        slot := i;
        return;
      }
      if r.Failed? {
        slot := i;
        return;
      }
      i := i + 1;
    }
    r, holder := Locked, None;
  }
}
