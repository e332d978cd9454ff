// pglock interleaved: connections are checked out of a pool, session-level advisory locks re-enter within a session,
// queries fail before or after they took effect, and connections die at any time (pglock/lock.go, pglock/holder.go).

module PgSteps {
  import opened PgKey

  /** An advisory lock: the session that has it and how often that session took it. */
  datatype Lock = Lock(session: nat, count: nat)

  /** One acquire attempt on one slot, from the checkout of its connection to its return. */
  datatype Phase =
    | CheckedOut                // pg_try_advisory_lock comes next
    | Missed                    // not locked or an error; the connection goes back next
    | Holding
    | Releasing                 // released flag won, pg_advisory_unlock comes next
    | Unlocked                  // the connection goes back next
    | Over

  /** base is the hashed name, n the caller's bound, returnCount how often the connection went back to the pool. */
  datatype Call = Call(base: int, slot: nat, n: nat, session: nat, phase: Phase, returnCount: nat)

  /** The server's locks and open sessions; the pool's idle and checked-out connections; every connection ever made. */
  datatype State = State(
    locks: map<int, Lock>,
    open: set<nat>,
    idle: set<nat>,
    out: map<nat, nat>,
    made: set<nat>,
    calls: map<nat, Call>)

  function Initial(): State {
    State(map[], {}, {}, map[], {}, map[])
  }

  datatype Step =
    | Checkout(id: nat, base: int, slot: nat, n: nat, session: nat)
    | TryLock(id: nat)
    | TryLockFails(id: nat, ran: bool, closes: bool)
    | ReleaseFlag(id: nat)
    | Unlock(id: nat)
    | UnlockFails(id: nat, ran: bool, closes: bool)
    | Return(id: nat)
    | SessionDies(session: nat)

  function KeyOf(c: Call): int {
    SlotKey(c.base, c.slot)
  }

  // ---------------------------------------------------------------- the server

  /** The locks after one more locking of key by this session. */
  function Taken(locks: map<int, Lock>, session: nat, key: int): map<int, Lock> {
    locks[key := Lock(session, if key in locks then locks[key].count + 1 else 1)]
  }

  /** The locks after one locking of key is undone. */
  function GivenBack(locks: map<int, Lock>, key: int): map<int, Lock>
    requires key in locks
  {
    if locks[key].count <= 1 then locks - {key} else locks[key := Lock(locks[key].session, locks[key].count - 1)]
  }

  /** The locks after the end of a session. */
  function Without(locks: map<int, Lock>, session: nat): map<int, Lock> {
    map k | k in locks && locks[k].session != session :: locks[k]
  }

  /** pg_try_advisory_lock re-enters within a session. */
  predicate Grants(s: State, session: nat, key: int) {
    session in s.open && (key !in s.locks || s.locks[key].session == session)
  }

  function Granted(s: State, session: nat, key: int): State {
    if !Grants(s, session, key) then s
    else s.(locks := Taken(s.locks, session, key))
  }

  /** pg_advisory_unlock undoes one locking. */
  function Undone(s: State, session: nat, key: int): State {
    if session !in s.open || key !in s.locks || s.locks[key].session != session then s
    else s.(locks := GivenBack(s.locks, key))
  }

  /** The end of a session ends all its locks. */
  function Closed(s: State, session: nat): State {
    s.(open := s.open - {session}, locks := Without(s.locks, session))
  }

  // ---------------------------------------------------------------- the steps

  function Phased(s: State, id: nat, phase: Phase): State
    requires id in s.calls
  {
    s.(calls := s.calls[id := s.calls[id].(phase := phase)])
  }

  /** The pool hands out an idle connection or opens a new one. */
  predicate Available(s: State, session: nat) {
    (session in s.idle && session in s.open) || session !in s.made
  }

  function DoCheckout(s: State, e: Step): State
    requires e.Checkout?
  {
    if e.id in s.calls || e.slot >= e.n || !Available(s, e.session) then s else
      s.(open := s.open + {e.session}, made := s.made + {e.session}, idle := s.idle - {e.session},
         out := s.out[e.session := e.id],
         calls := s.calls[e.id := Call(e.base, e.slot, e.n, e.session, CheckedOut, 0)])
  }

  /** conn.Release: back to idle, or dropped when the session is gone. */
  function DoReturn(s: State, id: nat): State
    requires id in s.calls
  {
    var c := s.calls[id];
    if !(c.phase.Missed? || c.phase.Unlocked?) then s else
      s.(idle := if c.session in s.open then s.idle + {c.session} else s.idle,
         out := s.out - {c.session},
         calls := s.calls[id := c.(phase := Over, returnCount := c.returnCount + 1)])
  }

  function Act(s: State, e: Step): State
    requires !e.Checkout? && !e.SessionDies? && e.id in s.calls
  {
    var c := s.calls[e.id];
    match e
    case TryLock(id) =>
      if !c.phase.CheckedOut? then s
      else Phased(Granted(s, c.session, KeyOf(c)), id, if Grants(s, c.session, KeyOf(c)) then Holding else Missed)
    case TryLockFails(id, ran, closes) =>
      if !c.phase.CheckedOut? then s else
        var s1 := if ran then Granted(s, c.session, KeyOf(c)) else s;
        Phased(if closes then Closed(s1, c.session) else s1, id, Missed)
    case ReleaseFlag(id) => if c.phase.Holding? then Phased(s, id, Releasing) else s
    case Unlock(id) => if c.phase.Releasing? then Phased(Undone(s, c.session, KeyOf(c)), id, Unlocked) else s
    case UnlockFails(id, ran, closes) =>
      if !c.phase.Releasing? then s else
        var s1 := if ran then Undone(s, c.session, KeyOf(c)) else s;
        Phased(if closes then Closed(s1, c.session) else s1, id, Unlocked)
    case Return(id) => DoReturn(s, id)
    case _ => s
  }

  /** One step; a step that is not possible in s changes nothing. */
  function Apply(s: State, e: Step): State {
    match e
    case Checkout(_, _, _, _, _) => DoCheckout(s, e)
    case SessionDies(session) => if session in s.open then Closed(s, session).(idle := s.idle - {session}) else s
    case _ => if e.id in s.calls then Act(s, e) else s
  }

  function Run(s: State, es: seq<Step>): State
    decreases |es|
  {
    if es == [] then s else Run(Apply(s, es[0]), es[1..])
  }

  // ---------------------------------------------------------------- the pool

  /** A checked-out connection belongs to exactly one call that has not returned it. */
  predicate CallOk(s: State, id: nat)
    requires id in s.calls
  {
    var c := s.calls[id];
    && c.slot < c.n
    && c.session in s.made
    && c.returnCount == (if c.phase.Over? then 1 else 0)
    && (!c.phase.Over? ==> c.session in s.out && s.out[c.session] == id)
  }

  predicate OutOk(s: State, session: nat)
    requires session in s.out
  {
    var id := s.out[session];
    id in s.calls && s.calls[id].session == session && !s.calls[id].phase.Over? && session !in s.idle
  }

  ghost predicate PoolOk(s: State) {
    && s.idle <= s.open <= s.made
    && (forall x :: x in s.open ==> x in s.idle || x in s.out)
    && (forall id :: id in s.calls ==> CallOk(s, id))
    && (forall x :: x in s.out ==> OutOk(s, x))
  }

  // ---------------------------------------------------------------- the locks

  predicate HasKey(c: Call) {
    c.phase.Holding? || c.phase.Releasing?
  }

  /** A holder whose session is open has its key. */
  predicate HolderOk(s: State, c: Call) {
    HasKey(c) && c.session in s.open ==>
      KeyOf(c) in s.locks && s.locks[KeyOf(c)].session == c.session
  }

  ghost predicate LocksOk(s: State) {
    && (forall k :: k in s.locks ==> s.locks[k].session in s.open && s.locks[k].count >= 1)
    && (forall id :: id in s.calls ==> HolderOk(s, s.calls[id]))
  }

  ghost predicate Inv(s: State) {
    PoolOk(s) && LocksOk(s)
  }

  /** Every lock is the one lock of one holder, taken once. */
  predicate LockClean(s: State, k: int)
    requires k in s.locks
  {
    var session := s.locks[k].session;
    && s.locks[k].count == 1
    && session in s.out && s.out[session] in s.calls
    && HasKey(s.calls[s.out[session]]) && KeyOf(s.calls[s.out[session]]) == k
  }

  ghost predicate Clean(s: State) {
    forall k :: k in s.locks ==> LockClean(s, k)
  }

  /** A failed query that may have left a lock behind closes its session. */
  predicate Tidy(e: Step) {
    match e
    case TryLockFails(_, ran, closes) => ran ==> closes
    case UnlockFails(_, ran, closes) => !ran ==> closes
    case _ => true
  }

  // ---------------------------------------------------------------- every step keeps the pool

  lemma AvailableIsNotOut(s: State, session: nat)
    requires PoolOk(s) && Available(s, session)
    ensures session !in s.out
  {
    assert forall x :: x in s.out ==> OutOk(s, x) && CallOk(s, s.out[x]);
  }

  lemma CheckoutKeepsPool(s: State, e: Step)
    requires PoolOk(s) && e.Checkout?
    ensures PoolOk(Apply(s, e))
  {
    hide SlotKey;
    var s' := Apply(s, e);
    if s' != s {
      AvailableIsNotOut(s, e.session);
      forall id | id in s'.calls ensures CallOk(s', id) {
        if id in s.calls { assert CallOk(s, id); }
      }
      forall x | x in s'.out ensures OutOk(s', x) {
        if x in s.out { assert OutOk(s, x); }
      }
    }
  }

  lemma ReturnKeepsPool(s: State, id: nat)
    requires PoolOk(s) && id in s.calls
    ensures PoolOk(DoReturn(s, id))
  {
    var s' := DoReturn(s, id);
    if s' != s {
      var session := s.calls[id].session;
      assert CallOk(s, id) && OutOk(s, session);
      forall i | i in s'.calls ensures CallOk(s', i) { assert CallOk(s, i); }
      forall x | x in s'.out ensures OutOk(s', x) { assert OutOk(s, x); }
    }
  }

  /** Locks and phases may change, and sessions may close, without the pool noticing. */
  lemma PhaseKeepsPool(s: State, s': State, id: nat, phase: Phase)
    requires PoolOk(s) && id in s.calls && !s.calls[id].phase.Over? && !phase.Over?
    requires s'.made == s.made && s'.out == s.out && s'.idle == s.idle
    requires s'.open == s.open || s'.open == s.open - {s.calls[id].session}
    requires s'.calls == s.calls[id := s.calls[id].(phase := phase)]
    ensures PoolOk(s')
  {
    assert CallOk(s, id) && OutOk(s, s.calls[id].session);
    forall i | i in s'.calls ensures CallOk(s', i) { assert CallOk(s, i); }
    forall x | x in s'.out ensures OutOk(s', x) { assert OutOk(s, x); }
  }

  lemma DeathKeepsPool(s: State, session: nat)
    requires PoolOk(s)
    ensures PoolOk(Apply(s, SessionDies(session)))
  {
    var s' := Apply(s, SessionDies(session));
    forall i | i in s'.calls ensures CallOk(s', i) { assert CallOk(s, i); }
    forall x | x in s'.out ensures OutOk(s', x) { assert OutOk(s, x); }
  }

  lemma StepKeepsPool(s: State, e: Step)
    requires PoolOk(s)
    ensures PoolOk(Apply(s, e))
  {
    hide PoolOk, SlotKey;
    match e
    case Checkout(_, _, _, _, _) => CheckoutKeepsPool(s, e);
    case SessionDies(session) => DeathKeepsPool(s, session);
    case Return(id) => if id in s.calls { ReturnKeepsPool(s, id); }
    case _ =>
      if e.id in s.calls && Apply(s, e) != s {
        PhaseKeepsPool(s, Apply(s, e), e.id, Apply(s, e).calls[e.id].phase);
      }
  }

  // ---------------------------------------------------------------- every step keeps the locks

  /** No other call uses the session of a call that has its connection. */
  lemma OneCallPerSession(s: State, a: nat, b: nat)
    requires PoolOk(s) && a in s.calls && b in s.calls && !s.calls[a].phase.Over? && !s.calls[b].phase.Over?
    requires s.calls[a].session == s.calls[b].session
    ensures a == b
  {
    assert CallOk(s, a) && CallOk(s, b);
  }

  lemma CheckoutKeepsLocks(s: State, e: Step)
    requires Inv(s) && e.Checkout?
    ensures LocksOk(Apply(s, e))
  {
    hide SlotKey;
    var s' := Apply(s, e);
    if s' != s {
      AvailableIsNotOut(s, e.session);
      forall id | id in s'.calls ensures HolderOk(s', s'.calls[id]) {
        assert id in s.calls ==> HolderOk(s, s.calls[id]) && CallOk(s, id);
      }
    }
  }

  lemma LockStepKeepsLocks(s: State, id: nat, ran: bool, closes: bool, phase: Phase)
    requires Inv(s) && id in s.calls && s.calls[id].phase.CheckedOut?
    requires phase.Holding? ==> ran && !closes && Grants(s, s.calls[id].session, KeyOf(s.calls[id]))
    requires phase.Holding? || phase.Missed?
    ensures var c := s.calls[id]; var s1 := if ran then Granted(s, c.session, KeyOf(c)) else s;
      LocksOk(Phased(if closes then Closed(s1, c.session) else s1, id, phase))
  {
    hide SlotKey;
    var c := s.calls[id];
    var s1 := if ran then Granted(s, c.session, KeyOf(c)) else s;
    var s' := Phased(if closes then Closed(s1, c.session) else s1, id, phase);
    forall i | i in s'.calls ensures HolderOk(s', s'.calls[i]) {
      assert HolderOk(s, s.calls[i]);
      if i != id && HasKey(s.calls[i]) && s.calls[i].session == c.session { OneCallPerSession(s, i, id); }
    }
  }

  lemma UnlockStepKeepsLocks(s: State, id: nat, ran: bool, closes: bool)
    requires Inv(s) && id in s.calls && s.calls[id].phase.Releasing?
    ensures var c := s.calls[id]; var s1 := if ran then Undone(s, c.session, KeyOf(c)) else s;
      LocksOk(Phased(if closes then Closed(s1, c.session) else s1, id, Unlocked))
  {
    hide SlotKey;
    var c := s.calls[id];
    var s1 := if ran then Undone(s, c.session, KeyOf(c)) else s;
    var s' := Phased(if closes then Closed(s1, c.session) else s1, id, Unlocked);
    forall i | i in s'.calls ensures HolderOk(s', s'.calls[i]) {
      assert HolderOk(s, s.calls[i]);
      if i != id && HasKey(s.calls[i]) && s.calls[i].session == c.session { OneCallPerSession(s, i, id); }
    }
  }

  lemma StepKeepsLocks(s: State, e: Step)
    requires Inv(s)
    ensures LocksOk(Apply(s, e))
  {
    hide SlotKey;
    match e
    case Checkout(_, _, _, _, _) => CheckoutKeepsLocks(s, e);
    case TryLock(id) =>
      if id in s.calls && s.calls[id].phase.CheckedOut? {
        LockStepKeepsLocks(s, id, true, false, if Grants(s, s.calls[id].session, KeyOf(s.calls[id])) then Holding else Missed);
      }
    case TryLockFails(id, ran, closes) =>
      if id in s.calls && s.calls[id].phase.CheckedOut? { LockStepKeepsLocks(s, id, ran, closes, Missed); }
    case Unlock(id) =>
      if id in s.calls && s.calls[id].phase.Releasing? { UnlockStepKeepsLocks(s, id, true, false); }
    case UnlockFails(id, ran, closes) =>
      if id in s.calls && s.calls[id].phase.Releasing? { UnlockStepKeepsLocks(s, id, ran, closes); }
    case _ => QuietStepKeepsLocks(s, e);
  }

  lemma QuietStepKeepsLocks(s: State, e: Step)
    requires Inv(s) && (e.ReleaseFlag? || e.Return? || e.SessionDies?)
    ensures LocksOk(Apply(s, e))
  {
    hide SlotKey, PoolOk;
    var s' := Apply(s, e);
    forall i | i in s'.calls ensures HolderOk(s', s'.calls[i]) {
      assert HolderOk(s, s.calls[i]);
    }
  }

  lemma StepKeeps(s: State, e: Step)
    requires Inv(s)
    ensures Inv(Apply(s, e))
  {
    hide PoolOk, LocksOk, Apply;
    StepKeepsPool(s, e);
    StepKeepsLocks(s, e);
  }

  lemma {:induction false} RunKeeps(s: State, es: seq<Step>)
    requires Inv(s)
    ensures Inv(Run(s, es))
    decreases |es|
  {
    hide Inv, Apply;
    if es != [] {
      StepKeeps(s, es[0]);
      RunKeeps(Apply(s, es[0]), es[1..]);
    }
  }

  lemma ReachableInv(es: seq<Step>)
    ensures Inv(Run(Initial(), es))
  {
    hide Run;
    RunKeeps(Initial(), es);
  }

  // ---------------------------------------------------------------- exclusion

  /** A live holder: not released, and its session still open. */
  predicate LiveHolder(s: State, id: nat) {
    id in s.calls && s.calls[id].phase.Holding? && s.calls[id].session in s.open
  }

  /**
   * Although locks re-enter within a session, two live holders never share a key in any run, whatever queries fail
   * and whether or not failing ones close their session.
   */
  lemma Exclusion(es: seq<Step>, a: nat, b: nat)
    requires var s := Run(Initial(), es); LiveHolder(s, a) && LiveHolder(s, b) && KeyOf(s.calls[a]) == KeyOf(s.calls[b])
    ensures a == b
  {
    hide Run, SlotKey;
    ReachableInv(es);
    var s := Run(Initial(), es);
    assert HolderOk(s, s.calls[a]) && HolderOk(s, s.calls[b]);
    OneCallPerSession(s, a, b);
  }

  /** The live holders of one hashed name. */
  function LiveHolders(s: State, base: int): set<nat> {
    set id | id in s.calls && LiveHolder(s, id) && s.calls[id].base == base
  }

  predicate BoundedBy(s: State, base: int, most: nat) {
    forall id :: id in s.calls && s.calls[id].base == base ==> s.calls[id].n <= most
  }

  ghost predicate Injective(ids: set<nat>, slots: map<nat, nat>, most: nat) {
    && (forall i :: i in ids ==> i in slots && slots[i] < most)
    && (forall i, j :: i in ids && j in ids && slots[i] == slots[j] ==> i == j)
  }

  lemma {:induction false} Pigeonhole(ids: set<nat>, slots: map<nat, nat>, most: nat)
    requires Injective(ids, slots, most)
    ensures |ids| <= most
  {
    if most == 0 {
      if i :| i in ids { assert false; }
    } else if i :| i in ids && slots[i] == most - 1 {
      Pigeonhole(ids - {i}, slots, most - 1);
    } else {
      Pigeonhole(ids, slots, most - 1);
    }
  }

  /** Live holders of a name never exceed the largest n any caller used, singleton and semaphore callers mixed. */
  lemma HoldersAreBounded(es: seq<Step>, base: int, most: nat)
    requires BoundedBy(Run(Initial(), es), base, most)
    ensures |LiveHolders(Run(Initial(), es), base)| <= most
  {
    hide Run, SlotKey;
    ReachableInv(es);
    var s := Run(Initial(), es);
    var ids := LiveHolders(s, base);
    var slots := map id | id in ids :: s.calls[id].slot;
    forall i | i in ids ensures slots[i] < most { assert CallOk(s, i); }
    forall i, j | i in ids && j in ids && slots[i] == slots[j] ensures i == j { Exclusion(es, i, j); }
    Pigeonhole(ids, slots, most);
  }

  // ---------------------------------------------------------------- the pool loses nothing

  /** Connections checked out by calls that hold nothing yet or nothing any more, and by holders. */
  function InFlight(s: State): set<nat> {
    set x | x in s.out && s.out[x] in s.calls && !HasKey(s.calls[s.out[x]])
  }

  function Held(s: State): set<nat> {
    set x | x in s.out && s.out[x] in s.calls && HasKey(s.calls[s.out[x]])
  }

  /**
   * In every run, idle, in-flight and held connections are disjoint, together they are all open connections and the
   * checked-out ones that died, and every call has returned its connection exactly once, when it is over.
   */
  lemma ConnectionsAreConserved(es: seq<Step>)
    ensures var s := Run(Initial(), es);
      && s.open + s.out.Keys == s.idle + InFlight(s) + Held(s)
      && |s.open + s.out.Keys| == |s.idle| + |InFlight(s)| + |Held(s)|
      && s.idle <= s.open
      && forall id :: id in s.calls ==> s.calls[id].returnCount == if s.calls[id].phase.Over? then 1 else 0
  {
    hide Run, SlotKey, LocksOk;
    ReachableInv(es);
    var s := Run(Initial(), es);
    assert forall x :: x in s.out ==> OutOk(s, x);
    assert s.open + s.out.Keys == s.idle + InFlight(s) + Held(s);
    assert s.idle !! InFlight(s) && (s.idle + InFlight(s)) !! Held(s);
    assert forall id :: id in s.calls ==> CallOk(s, id);
  }

  // ---------------------------------------------------------------- clean sessions

  lemma CleanAfterLock(s: State, id: nat, ran: bool, closes: bool, phase: Phase)
    requires Inv(s) && Clean(s) && id in s.calls && s.calls[id].phase.CheckedOut?
    requires phase.Holding? <==> ran && !closes && Grants(s, s.calls[id].session, KeyOf(s.calls[id]))
    requires phase.Holding? || phase.Missed?
    ensures var c := s.calls[id]; var s1 := if ran then Granted(s, c.session, KeyOf(c)) else s;
      Clean(Phased(if closes then Closed(s1, c.session) else s1, id, phase))
  {
    hide SlotKey, LocksOk;
    var c := s.calls[id];
    var s1 := if ran then Granted(s, c.session, KeyOf(c)) else s;
    var s' := Phased(if closes then Closed(s1, c.session) else s1, id, phase);
    assert CallOk(s, id);
    assert KeyOf(c) in s.locks ==> s.locks[KeyOf(c)].session != c.session by {
      if KeyOf(c) in s.locks { assert LockClean(s, KeyOf(c)); }
    }
    forall k | k in s'.locks ensures LockClean(s', k) {
      if k in s.locks { assert LockClean(s, k); }
    }
  }

  lemma CleanAfterUnlock(s: State, id: nat, ran: bool, closes: bool)
    requires Inv(s) && Clean(s) && id in s.calls && s.calls[id].phase.Releasing? && (ran || closes)
    ensures var c := s.calls[id]; var s1 := if ran then Undone(s, c.session, KeyOf(c)) else s;
      Clean(Phased(if closes then Closed(s1, c.session) else s1, id, Unlocked))
  {
    hide SlotKey;
    var c := s.calls[id];
    var s1 := if ran then Undone(s, c.session, KeyOf(c)) else s;
    var s' := Phased(if closes then Closed(s1, c.session) else s1, id, Unlocked);
    assert CallOk(s, id) && HolderOk(s, c);
    forall k | k in s'.locks ensures LockClean(s', k) {
      assert LockClean(s, k);
      assert s.locks[k].session in s.open;
    }
  }

  lemma StepKeepsClean(s: State, e: Step)
    requires Inv(s) && Clean(s) && Tidy(e)
    ensures Clean(Apply(s, e))
  {
    hide SlotKey;
    match e
    case TryLock(id) =>
      if id in s.calls && s.calls[id].phase.CheckedOut? {
        CleanAfterLock(s, id, true, false, if Grants(s, s.calls[id].session, KeyOf(s.calls[id])) then Holding else Missed);
      }
    case TryLockFails(id, ran, closes) =>
      if id in s.calls && s.calls[id].phase.CheckedOut? { CleanAfterLock(s, id, ran, closes, Missed); }
    case Unlock(id) =>
      if id in s.calls && s.calls[id].phase.Releasing? { CleanAfterUnlock(s, id, true, false); }
    case UnlockFails(id, ran, closes) =>
      if id in s.calls && s.calls[id].phase.Releasing? { CleanAfterUnlock(s, id, ran, closes); }
    case _ => QuietStepKeepsClean(s, e);
  }

  lemma QuietStepKeepsClean(s: State, e: Step)
    requires Inv(s) && Clean(s) && (e.Checkout? || e.ReleaseFlag? || e.Return? || e.SessionDies?)
    ensures Clean(Apply(s, e))
  {
    hide SlotKey, LocksOk;
    var s' := Apply(s, e);
    forall k | k in s'.locks ensures LockClean(s', k) {
      assert LockClean(s, k);
      var x := s.locks[k].session;
      assert OutOk(s, x);
      if e.Return? && e.id in s.calls && s'.calls != s.calls {
        assert CallOk(s, e.id);
      }
    }
  }

  lemma {:induction false} RunKeepsClean(s: State, es: seq<Step>)
    requires Inv(s) && Clean(s) && forall i :: 0 <= i < |es| ==> Tidy(es[i])
    ensures Clean(Run(s, es))
    decreases |es|
  {
    hide Inv, Clean, Apply, Tidy;
    if es != [] {
      StepKeeps(s, es[0]);
      StepKeepsClean(s, es[0]);
      RunKeepsClean(Apply(s, es[0]), es[1..]);
    }
  }

  /**
   * If a failed query that may have left a lock behind closes its session, then in every run idle sessions have no
   * locks, and the session of a checked-out connection has at most the one lock of its holder, taken once.
   */
  lemma SessionsAreClean(es: seq<Step>, k: int)
    requires forall i :: 0 <= i < |es| ==> Tidy(es[i])
    requires k in Run(Initial(), es).locks
    ensures var s := Run(Initial(), es); s.locks[k].session !in s.idle && LockClean(s, k)
  {
    hide Run, SlotKey;
    ReachableInv(es);
    RunKeepsClean(Initial(), es);
    var s := Run(Initial(), es);
    assert LockClean(s, k);
    assert OutOk(s, s.locks[k].session);
  }

  /** And then a Release whose unlock works frees the key for every session. */
  lemma ReleaseFreesTheKey(es: seq<Step>, id: nat)
    requires forall i :: 0 <= i < |es| ==> Tidy(es[i])
    requires var s := Run(Initial(), es); id in s.calls && s.calls[id].phase.Releasing? && s.calls[id].session in s.open
    ensures var s := Run(Initial(), es); KeyOf(s.calls[id]) !in Apply(s, Unlock(id)).locks
  {
    hide Run, SlotKey;
    ReachableInv(es);
    RunKeepsClean(Initial(), es);
    var s := Run(Initial(), es);
    assert HolderOk(s, s.calls[id]);
    assert LockClean(s, KeyOf(s.calls[id]));
  }

  // ---------------------------------------------------------------- calls that run alone

  lemma CleanRun(es: seq<Step>)
    requires forall i :: 0 <= i < |es| ==> Tidy(es[i])
    ensures Inv(Run(Initial(), es)) && Clean(Run(Initial(), es))
  {
    hide Run;
    ReachableInv(es);
    RunKeepsClean(Initial(), es);
  }

  /**
   * After a clean run, a call that nobody interrupts gets the lock exactly if nobody has it, once and on a connection
   * of its own; otherwise nothing changes and the connection goes back.
   */
  lemma AcquireAlone(es: seq<Step>, id: nat, base: int, slot: nat, n: nat, x: nat)
    requires forall i :: 0 <= i < |es| ==> Tidy(es[i])
    requires var s := Run(Initial(), es); id !in s.calls && slot < n && (x in s.idle || x !in s.made)
    ensures var s := Run(Initial(), es); var key := SlotKey(base, slot);
      var s1 := Apply(s, Checkout(id, base, slot, n, x)); var s2 := Apply(s1, TryLock(id));
      if key in s.locks then
        var s3 := Apply(s2, Return(id));
        s2.locks == s.locks && x in s3.idle && s3.out == s.out && !LiveHolder(s2, id)
      else
        LiveHolder(s2, id) && KeyOf(s2.calls[id]) == key && s2.locks == s.locks[key := Lock(x, 1)]
  {
    hide Run, SlotKey, LocksOk;
    CleanRun(es);
    var s := Run(Initial(), es);
    IdleIsOpen(s);
    assert x !in s.out by { IdleIsNotOut(s, x); }
    assert SlotKey(base, slot) in s.locks ==> LockClean(s, SlotKey(base, slot));
    hide PoolOk;
    var s3 := Apply(Apply(Apply(s, Checkout(id, base, slot, n, x)), TryLock(id)), Return(id));
    assert s.out[x := id] - {x} == s.out;
  }

  lemma IdleIsNotOut(s: State, x: nat)
    requires PoolOk(s) && (x in s.idle || x !in s.made)
    ensures x !in s.out
  {
    assert forall y :: y in s.out ==> OutOk(s, y) && CallOk(s, s.out[y]);
  }

  /** After a clean run, a Release that nobody interrupts frees the key and gives the connection back. */
  lemma ReleaseAlone(es: seq<Step>, id: nat)
    requires forall i :: 0 <= i < |es| ==> Tidy(es[i])
    requires LiveHolder(Run(Initial(), es), id)
    ensures var s := Run(Initial(), es); var c := s.calls[id];
      var s' := Apply(Apply(Apply(s, ReleaseFlag(id)), Unlock(id)), Return(id));
      && s'.locks == s.locks - {KeyOf(c)} && KeyOf(c) in s.locks
      && s'.idle == s.idle + {c.session} && s'.out == s.out - {c.session}
  {
    hide Run, SlotKey, PoolOk;
    CleanRun(es);
    var s := Run(Initial(), es);
    assert HolderOk(s, s.calls[id]);
    assert LockClean(s, KeyOf(s.calls[id]));
  }

  /** The end of a session ends its locks and no others, and takes it out of the pool. */
  lemma DeathEnds(s: State, x: nat)
    requires x in s.open
    ensures var s' := Apply(s, SessionDies(x));
      && s'.open == s.open - {x} && s'.idle == s.idle - {x}
      && (forall k :: k in s'.locks <==> k in s.locks && s.locks[k].session != x)
      && (forall k :: k in s'.locks ==> s'.locks[k] == s.locks[k])
      && s'.out == s.out && s'.made == s.made && s'.calls == s.calls
  {
  }

  /** The connection of a failed query goes back to the pool exactly if its session was not closed. */
  lemma FailedCallsReturn(es: seq<Step>, id: nat, ran: bool, closes: bool)
    requires var s := Run(Initial(), es); id in s.calls && s.calls[id].session in s.open
    ensures var s := Run(Initial(), es); var x := s.calls[id].session;
      s.calls[id].phase.CheckedOut? ==>
        var s' := Apply(Apply(s, TryLockFails(id, ran, closes)), Return(id));
        x !in s'.out && (x in s'.idle <==> !closes) && (x in s'.open <==> !closes)
    ensures var s := Run(Initial(), es); var x := s.calls[id].session;
      s.calls[id].phase.Releasing? ==>
        var s' := Apply(Apply(s, UnlockFails(id, ran, closes)), Return(id));
        x !in s'.out && (x in s'.idle <==> !closes) && (x in s'.open <==> !closes)
  {
    hide Run, SlotKey, LocksOk, Without, Taken, GivenBack;
    ReachableInv(es);
    var s := Run(Initial(), es);
    assert CallOk(s, id) && (s.calls[id].session in s.out ==> OutOk(s, s.calls[id].session));
  }

  /** Locks re-enter within a session, and each unlock undoes one locking: the one before is there again. */
  lemma UnlockUndoesLock(s: State, x: nat, key: int)
    requires x in s.open && (key in s.locks ==> s.locks[key].session == x && s.locks[key].count >= 1)
    ensures Granted(s, x, key).locks == s.locks[key := Lock(x, (if key in s.locks then s.locks[key].count else 0) + 1)]
    ensures Undone(Granted(s, x, key), x, key) == s
  {
  }

  // ---------------------------------------------------------------- a failed unlock can leak its lock

  /** After a clean run, a failed unlock leaves its key locked exactly when it neither ran nor closed its session. */
  lemma FailedUnlockLeaksExactly(es: seq<Step>, id: nat, ran: bool, closes: bool)
    requires forall i :: 0 <= i < |es| ==> Tidy(es[i])
    requires var s := Run(Initial(), es); id in s.calls && s.calls[id].phase.Releasing? && s.calls[id].session in s.open
    ensures var s := Run(Initial(), es);
      && (KeyOf(s.calls[id]) in Apply(s, UnlockFails(id, ran, closes)).locks <==> !ran && !closes)
      && (Tidy(UnlockFails(id, ran, closes)) <==> ran || closes)
  {
    hide Run, SlotKey;
    ReachableInv(es);
    RunKeepsClean(Initial(), es);
    var s := Run(Initial(), es);
    assert HolderOk(s, s.calls[id]);
    assert LockClean(s, KeyOf(s.calls[id]));
  }

  /** And a failed try-lock leaves a free key locked exactly when it ran and did not close its session. */
  lemma FailedLockLeaksExactly(es: seq<Step>, id: nat, ran: bool, closes: bool)
    requires forall i :: 0 <= i < |es| ==> Tidy(es[i])
    requires var s := Run(Initial(), es); id in s.calls && s.calls[id].phase.CheckedOut? && s.calls[id].session in s.open
    requires var s := Run(Initial(), es); KeyOf(s.calls[id]) !in s.locks
    ensures var s := Run(Initial(), es);
      && (KeyOf(s.calls[id]) in Apply(s, TryLockFails(id, ran, closes)).locks <==> ran && !closes)
      && (Tidy(TryLockFails(id, ran, closes)) <==> !ran || closes)
  {
    hide Run, SlotKey;
  }

  /** Session x has key once more than its current call knows of. */
  ghost predicate Stuck(s: State, x: nat, key: int) {
    && key in s.locks && s.locks[key].session == x && s.locks[key].count >= 1
    && (forall i :: i in s.calls && s.calls[i].session == x && HasKey(s.calls[i]) && KeyOf(s.calls[i]) == key ==>
          s.locks[key].count >= 2)
  }

  ghost predicate Leaky(s: State, x: nat, key: int) {
    x in s.made && (x in s.open ==> Stuck(s, x, key))
  }

  /** Every other call that ever used the session of id is over. */
  lemma OthersAreOver(s: State, id: nat)
    requires PoolOk(s) && id in s.calls && !s.calls[id].phase.Over?
    ensures forall i :: i in s.calls && i != id && s.calls[i].session == s.calls[id].session ==> s.calls[i].phase.Over?
  {
    forall i | i in s.calls && i != id && s.calls[i].session == s.calls[id].session ensures s.calls[i].phase.Over? {
      if !s.calls[i].phase.Over? { OneCallPerSession(s, i, id); }
    }
  }

  /** A call that locks or unlocks on its session, which may then be closed. */
  lemma CallKeepsLeak(s: State, id: nat, s1: State, closes: bool, phase: Phase, x: nat, key: int)
    requires Inv(s) && Leaky(s, x, key) && id in s.calls && !s.calls[id].phase.Over?
    requires var c := s.calls[id];
      || s1 == s
      || s1 == Granted(s, c.session, KeyOf(c))
      || (HasKey(c) && s1 == Undone(s, c.session, KeyOf(c)))
    requires var c := s.calls[id];
      HasKey(c.(phase := phase)) ==> (HasKey(c) && s1 == s) || (Grants(s, c.session, KeyOf(c)) && s1 == Granted(s, c.session, KeyOf(c)))
    ensures Leaky(Phased(if closes then Closed(s1, s.calls[id].session) else s1, id, phase), x, key)
  {
    hide SlotKey, LocksOk, PoolOk;
    OthersAreOver(s, id);
    var c := s.calls[id];
    assert HasKey(c) && c.session == x && KeyOf(c) == key && x in s.open ==> s.locks[key].count >= 2;
  }

  lemma StepKeepsLeak(s: State, e: Step, x: nat, key: int)
    requires Inv(s) && Leaky(s, x, key)
    ensures Leaky(Apply(s, e), x, key)
  {
    hide SlotKey, LocksOk, PoolOk, Granted, Undone, Grants;
    assert s.idle <= s.open by { IdleIsOpen(s); }
    match e
    case Checkout(_, _, _, _, _) =>
    case SessionDies(_) =>
    case TryLock(id) =>
      if id in s.calls && s.calls[id].phase.CheckedOut? {
        var c := s.calls[id];
        var phase := if Grants(s, c.session, KeyOf(c)) then Holding else Missed;
        CallKeepsLeak(s, id, Granted(s, c.session, KeyOf(c)), false, phase, x, key);
      }
    case TryLockFails(id, ran, closes) =>
      if id in s.calls && s.calls[id].phase.CheckedOut? {
        var c := s.calls[id];
        CallKeepsLeak(s, id, if ran then Granted(s, c.session, KeyOf(c)) else s, closes, Missed, x, key);
      }
    case ReleaseFlag(id) =>
      if id in s.calls && s.calls[id].phase.Holding? { CallKeepsLeak(s, id, s, false, Releasing, x, key); }
    case Unlock(id) =>
      if id in s.calls && s.calls[id].phase.Releasing? {
        var c := s.calls[id];
        CallKeepsLeak(s, id, Undone(s, c.session, KeyOf(c)), false, Unlocked, x, key);
      }
    case UnlockFails(id, ran, closes) =>
      if id in s.calls && s.calls[id].phase.Releasing? {
        var c := s.calls[id];
        CallKeepsLeak(s, id, if ran then Undone(s, c.session, KeyOf(c)) else s, closes, Unlocked, x, key);
      }
    case Return(id) =>
  }

  lemma IdleIsOpen(s: State)
    requires PoolOk(s)
    ensures s.idle <= s.open
  {
  }

  lemma {:induction false} RunKeepsLeak(s: State, es: seq<Step>, x: nat, key: int)
    requires Inv(s) && Leaky(s, x, key)
    ensures Leaky(Run(s, es), x, key)
    decreases |es|
  {
    hide Inv, Leaky, Apply;
    if es != [] {
      StepKeeps(s, es[0]);
      StepKeepsLeak(s, es[0], x, key);
      RunKeepsLeak(Apply(s, es[0]), es[1..], x, key);
    }
  }

  /** After an unlock that neither ran nor closed its session. */
  function AfterLeak(es: seq<Step>, id: nat, later: seq<Step>): State {
    Run(Apply(Run(Initial(), es), UnlockFails(id, false, false)), later)
  }

  /**
   * Such a leak lasts exactly as long as the session: through every later run the session keeps the key as long as it
   * is open, whoever uses its connection meanwhile, and no other session can get the key or hold it.
   */
  lemma LeakLastsExactly(es: seq<Step>, id: nat, later: seq<Step>)
    requires var s := Run(Initial(), es); id in s.calls && s.calls[id].phase.Releasing? && s.calls[id].session in s.open
    ensures var c := Run(Initial(), es).calls[id]; var s := AfterLeak(es, id, later);
      && (KeyOf(c) in s.locks && s.locks[KeyOf(c)].session == c.session <==> c.session in s.open)
      && (c.session in s.open ==>
            && (forall y :: y != c.session ==> !Grants(s, y, KeyOf(c)))
            && (forall i :: LiveHolder(s, i) && KeyOf(s.calls[i]) == KeyOf(c) ==> s.calls[i].session == c.session))
  {
    hide Run, SlotKey;
    ReachableInv(es);
    var s0 := Run(Initial(), es);
    var c := s0.calls[id];
    var s1 := Apply(s0, UnlockFails(id, false, false));
    assert HolderOk(s0, c) && CallOk(s0, id);
    OthersAreOver(s0, id);
    assert Leaky(s1, c.session, KeyOf(c));
    StepKeeps(s0, UnlockFails(id, false, false));
    RunKeeps(s1, later);
    RunKeepsLeak(s1, later, c.session, KeyOf(c));
    var s := Run(s1, later);
    assert forall i :: i in s.calls ==> HolderOk(s, s.calls[i]);
  }

  /** A holder releases with an unlock that fails; then another caller tries on a connection of its own. */
  function LeakRun(base: int): seq<Step> {
    [Checkout(0, base, 0, 1, 0), TryLock(0), ReleaseFlag(0), UnlockFails(0, false, false), Return(0),
     Checkout(1, base, 0, 1, 1), TryLock(1)]
  }

  /** It is refused, although nobody holds the lock and no call is in progress that could. */
  lemma LeakRefusesOthers(base: int)
    ensures var s := Run(Initial(), LeakRun(base));
      && 1 in s.calls && s.calls[1].phase.Missed? && KeyOf(s.calls[1]) == SlotKey(base, 0)
      && (forall i :: i in s.calls && i != 1 ==> s.calls[i].phase.Over?)
  {
    hide Run, SlotKey;
    var es := LeakRun(base);
    var s0 := Initial();
    var s1 := Apply(s0, es[0]);
    var s2 := Apply(s1, es[1]);
    var s3 := Apply(s2, es[2]);
    var s4 := Apply(s3, es[3]);
    var s5 := Apply(s4, es[4]);
    var s6 := Apply(s5, es[5]);
    var s7 := Apply(s6, es[6]);
    var key := SlotKey(base, 0);
    assert s2.locks == map[key := Lock(0, 1)] && s2.calls[0].phase.Holding?;
    assert s5.locks == map[key := Lock(0, 1)] && s5.calls[0].phase.Over? && s5.made == {0};
    assert s6.locks == map[key := Lock(0, 1)] && s6.calls[1].phase.CheckedOut?;
    assert s7.calls[1].phase.Missed? && s7.calls[0].phase.Over?;
    hide Apply;
    RunSteps(s0, es, 7);
    assert es[..7] == es;
    assert After(s0, es, 1) == s1;
    assert After(s0, es, 3) == s3;
    assert After(s0, es, 5) == s5;
  }

  /** The state after the first n steps. */
  function After(s: State, es: seq<Step>, n: nat): State
    requires n <= |es|
  {
    if n == 0 then s else Apply(After(s, es, n - 1), es[n - 1])
  }

  lemma {:induction false} RunSnoc(s: State, es: seq<Step>, e: Step)
    ensures Run(s, es + [e]) == Apply(Run(s, es), e)
    decreases |es|
  {
    hide Apply;
    if es == [] {
      assert (es + [e])[1..] == [];
      assert Run(Apply(s, e), []) == Apply(s, e);
    } else {
      assert (es + [e])[1..] == es[1..] + [e];
      RunSnoc(Apply(s, es[0]), es[1..], e);
    }
  }

  lemma {:induction false} RunSteps(s: State, es: seq<Step>, n: nat)
    requires n <= |es|
    ensures Run(s, es[..n]) == After(s, es, n)
  {
    hide Apply, Run;
    if n == 0 {
      assert es[..0] == [] && Run(s, []) == s by { RunNothing(s); }
    } else {
      RunSteps(s, es, n - 1);
      assert es[..n] == es[..n - 1] + [es[n - 1]];
      RunSnoc(s, es[..n - 1], es[n - 1]);
    }
  }

  lemma RunNothing(s: State)
    ensures Run(s, []) == s
  {
  }
}
