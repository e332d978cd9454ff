// What every interleaving of redislock guarantees: ownership, lease continuity, token order and fencing.

module RedisLaws {
  import opened Wrappers
  import opened Decimal
  import opened RedisKeys
  import opened RedisStore
  import opened RedisLock
  import opened RedisSteps

  // ---------------------------------------------------------------- runs

  lemma {:induction false} RunAppend(s: State, a: seq<Step>, b: seq<Step>)
    ensures Run(s, a + b) == Run(Run(s, a), b)
    decreases |a|
  {
    hide Apply;
    if a == [] {
      assert a + b == b;
    } else {
      assert (a + b)[1..] == a[1..] + b;
      RunAppend(Apply(s, a[0]), a[1..], b);
    }
  }

  lemma RunSnoc(s: State, es: seq<Step>, i: nat)
    requires i < |es|
    ensures Run(s, es[..i + 1]) == Apply(Run(s, es[..i]), es[i])
  {
    hide Apply;
    assert es[..i + 1] == es[..i] + [es[i]];
    RunAppend(s, es[..i], [es[i]]);
    assert Run(Run(s, es[..i]), [es[i]]) == Run(Apply(Run(s, es[..i]), es[i]), []);
  }

  lemma RunTwo(s: State, d: Step, e: Step)
    ensures Run(s, [d, e]) == Apply(Apply(s, d), e)
  {
    hide Apply;
    assert [d, e][1..] == [e] && [e][1..] == [];
    assert Run(Apply(Apply(s, d), e), []) == Apply(Apply(s, d), e);
  }

  /** The two requests of an acquire that nobody interrupts do what RedisLock.AcquireSlot promises. */
  lemma AcquireAlone(s: State, v: string, prefix: string, name: string, slot: int, ttl: nat, incr: Link)
    requires v !in s.attempts && IsHolderValue(v) && KeyFor(prefix, name, slot) !in s.store.db
    ensures var s' := Run(s, [SetNx(v, prefix, name, slot, ttl, Fine), IncrCall(v, incr)]);
      && v in s'.attempts && s'.attempts[v].token.Some?
      && GrantedStore(s.store, s'.store, prefix, name, slot, v, ttl, incr, s'.attempts[v].token.value)
      && (var a := s'.attempts[v];
          a.key == KeyFor(prefix, name, slot) && a.counter == FenceKey(prefix, name) && a.ttl == ttl && !a.orphan
          && !a.released && a.began == s.steps && a.incrAt == s.steps + 1 && a.onTime)
  {
    hide KeyFor, FenceKey, IsHolderValue, Incr, IncrReply, SetNX, OwnsKey;
    RunTwo(s, SetNx(v, prefix, name, slot, ttl, Fine), IncrCall(v, incr));
    GrantedExactly(s, SetNx(v, prefix, name, slot, ttl, Fine));
  }

  // ---------------------------------------------------------------- ownership

  /** What an attempt keeps for ever. */
  predicate SameRecord(a: Attempt, b: Attempt) {
    && SameAcquire(a, b) && a.ttl == b.ttl
    && (a.token.Some? ==> b.token == a.token && b.incrAt == a.incrAt && b.onTime == a.onTime)
    && (a.unlocked ==> b.unlocked)
  }

  lemma SetNxKeepsRecord(s: State, e: Step, v: string)
    requires v in s.attempts && e.SetNx?
    ensures v in DoSetNx(s, e).attempts && SameRecord(s.attempts[v], DoSetNx(s, e).attempts[v])
  {
    hide IsHolderValue, KeyFor, FenceKey, SetNX;
  }

  lemma ReleaseKeepsRecord(s: State, x: string, link: Link, v: string)
    requires v in s.attempts && x in s.attempts
    ensures var s' := DoReleaseRun(s, x, link); v in s'.attempts && SameRecord(s.attempts[v], s'.attempts[v])
  {
    hide ReleaseScript;
  }

  lemma ExtendKeepsRecord(s: State, x: string, link: Link, v: string)
    requires v in s.attempts && x in s.attempts
    ensures var s' := DoExtendRun(s, x, link); v in s'.attempts && SameRecord(s.attempts[v], s'.attempts[v])
  {
    hide ExtendScript, ExtendMillis;
  }

  lemma OtherCallKeepsRecord(s: State, e: Step, v: string)
    requires v in s.attempts && (e.IncrCall? || e.Resent?)
    ensures v in Effect(s, e).attempts && SameRecord(s.attempts[v], Effect(s, e).attempts[v])
  {
    hide Incr, IncrReply, ReleaseScript, ExtendScript, ExtendMillis, OwnsKey;
  }

  lemma StepKeepsRecord(s: State, e: Step, v: string)
    requires v in s.attempts
    ensures v in Apply(s, e).attempts && SameRecord(s.attempts[v], Apply(s, e).attempts[v])
  {
    hide DoSetNx, DoIncr, DoReleaseRun, DoExtendRun, DoResent, Tick, Accepts, CanCall;
    if e.SetNx? { SetNxKeepsRecord(s, e, v); }
    if e.ReleaseRun? && e.value in s.attempts { ReleaseKeepsRecord(s, e.value, e.link, v); }
    if e.ExtendRun? && e.value in s.attempts { ExtendKeepsRecord(s, e.value, e.link, v); }
    if e.IncrCall? || e.Resent? { OtherCallKeepsRecord(s, e, v); }
  }

  lemma {:induction false} RunKeepsRecord(s: State, es: seq<Step>, v: string)
    requires v in s.attempts
    ensures v in Run(s, es).attempts && SameRecord(s.attempts[v], Run(s, es).attempts[v])
    decreases |es|
  {
    hide Apply;
    if es != [] {
      StepKeepsRecord(s, es[0], v);
      RunKeepsRecord(Apply(s, es[0]), es[1..], v);
    }
  }

  /** A key is only ever gained by a SET NX with a fresh value. */
  lemma StepGainsNothing(s: State, e: Step, v: string)
    requires v in s.attempts && OwnsKey(Apply(s, e), v)
    ensures OwnsKey(s, v)
  {
    hide DecInt, IsHolderValue, KeyFor, FenceKey, ExtendMillis, SetMillis;
    StepKeepsRecord(s, e, v);
  }

  /** Once lost, a key never comes back to the same holder. */
  lemma {:induction false} LostIsLost(s: State, es: seq<Step>, v: string)
    requires v in s.attempts && !OwnsKey(s, v)
    ensures !OwnsKey(Run(s, es), v)
    decreases |es|
  {
    hide Apply, OwnsKey;
    if es != [] {
      if OwnsKey(Apply(s, es[0]), v) { StepGainsNothing(s, es[0], v); }
      StepKeepsRecord(s, es[0], v);
      LostIsLost(Apply(s, es[0]), es[1..], v);
    }
  }

  /**
   * A holder whose release script ran never owns the key again, whatever follows: not even an Extend that passed
   * its released check before can bring the key back.
   */
  lemma ReleasedNeverReturns(es: seq<Step>, v: string, link: Link, later: seq<Step>)
    requires var s := Run(Initial(), es); v in s.attempts && s.attempts[v].releasing && !link.RequestLost?
    ensures !OwnsKey(Run(Apply(Run(Initial(), es), ReleaseRun(v, link)), later), v)
  {
    hide Run, OwnsKey, IsHolderValue, CountersFit, ReleaseScript;
    var s := Run(Initial(), es);
    ReachableInv(es);
    var s' := Apply(s, ReleaseRun(v, link));
    ScriptLosesOwnKey(s, v, link);
    LostIsLost(s', later, v);
  }

  lemma ScriptLosesOwnKey(s: State, v: string, link: Link)
    requires Inv(s) && v in s.attempts && s.attempts[v].releasing && !link.RequestLost?
    ensures var s' := Apply(s, ReleaseRun(v, link)); v in s'.attempts && !OwnsKey(s', v)
  {
    hide IsHolderValue, CountersFit, ReleaseScript, Inv;
    ValueIsHolder(s, v);
    ScriptsOnlyLose(s.store, s.attempts[v].key, v, 0);
  }

  /** In every run, a Release or Extend that gets its answer reports success exactly when its holder owned the key. */
  lemma AnswerIsOwnership(es: seq<Step>, e: Step)
    ensures var s := Run(Initial(), es); Answer(s, e).Some? ==> (Answer(s, e).value <==> OwnsKey(s, e.value))
  {
    hide Run, Matches, IsHolderValue, CountersFit;
    ReachableInv(es);
    var s := Run(Initial(), es);
    if Answer(s, e).Some? {
      ValueIsHolder(s, e.value);
      MatchesMeansOwns(s.store, s.attempts[e.value].key, e.value);
    }
  }

  /** A Release that deletes its key but has to be sent again reports the lock as lost, whenever the answer comes. */
  lemma ResentReleaseReportsLost(es: seq<Step>, v: string, later: seq<Step>)
    requires var s := Run(Initial(), es); v in s.attempts && s.attempts[v].releasing
    ensures var s := Run(Initial(), es + [Resent(v, ReleaseRequest)] + later);
      Answer(s, ReleaseRun(v, Fine)).Some? ==> Answer(s, ReleaseRun(v, Fine)) == Some(false)
  {
    hide Run, Answer, IsHolderValue, CountersFit, ReleaseScript, OwnsKey;
    var s0 := Run(Initial(), es);
    ReachableInv(es);
    var s1 := Apply(s0, Resent(v, ReleaseRequest));
    ResentLosesOwnKey(s0, v);
    hide Apply;
    RunAppend(Initial(), es + [Resent(v, ReleaseRequest)], later);
    RunAppend(Initial(), es, [Resent(v, ReleaseRequest)]);
    RunOne(s0, Resent(v, ReleaseRequest));
    LostIsLost(s1, later, v);
    AnswerIsOwnership(es + [Resent(v, ReleaseRequest)] + later, ReleaseRun(v, Fine));
  }

  lemma ResentLosesOwnKey(s: State, v: string)
    requires Inv(s) && v in s.attempts && s.attempts[v].releasing
    ensures var s' := Apply(s, Resent(v, ReleaseRequest)); v in s'.attempts && !OwnsKey(s', v)
  {
    hide IsHolderValue, CountersFit, ReleaseScript, Inv;
    ValueIsHolder(s, v);
    ScriptsOnlyLose(s.store, s.attempts[v].key, v, 0);
  }

  /** The steps of Release and Extend calls of v. */
  predicate IsScriptOf(e: Step, v: string) {
    (e.ReleaseRun? || e.ExtendRun? || (e.Resent? && !e.request.IncrRequest?)) && e.value == v
  }

  /** In every run, neither Release nor Extend deletes or re-times a key that holds anything but the caller's value. */
  lemma CallsSpareOthers(es: seq<Step>, e: Step, v: string, k: string)
    requires IsScriptOf(e, v)
    requires var s := Run(Initial(), es); k in s.store.db && !(s.store.db[k].Lease? && s.store.db[k].value == v)
    ensures var s := Run(Initial(), es); k in Apply(s, e).store.db && Apply(s, e).store.db[k] == s.store.db[k]
  {
    hide Run, IsHolderValue, CountersFit, ReleaseScript, ExtendScript, ExtendMillis;
    ReachableInv(es);
    var s := Run(Initial(), es);
    if v in s.attempts {
      ValueIsHolder(s, v);
      ScriptsSpareOthers(s.store, s.attempts[v].key, v, ExtendMillis(s.attempts[v].ttl), k);
    }
  }

  /** When a later attempt holds or held the same key, the earlier one's ownership is over. */
  lemma EarlierOwnerIsGone(es: seq<Step>, u: string, w: string)
    requires var s := Run(Initial(), es);
      u in s.attempts && w in s.attempts && s.attempts[u].key == s.attempts[w].key && s.attempts[u].began < s.attempts[w].began
    ensures !OwnsKey(Run(Initial(), es), u)
  {
    hide Run, TokensOk, PairsOk, LeasesOk, BeganDiffer, OwnsKey;
    ReachableInv(es);
  }

  // ---------------------------------------------------------------- lease continuity

  /** Is this step, taken in s, the release script of v reaching the server? */
  predicate Unlocks(s: State, e: Step, v: string)
    requires v in s.attempts
  {
    && ((e.ReleaseRun? && !e.link.RequestLost?) || (e.Resent? && e.request.ReleaseRequest?))
    && e.value == v && s.attempts[v].releasing
  }

  /** Is it the extend script of v reaching the server? */
  predicate Renews(s: State, e: Step, v: string)
    requires v in s.attempts
  {
    && ((e.ExtendRun? && !e.link.RequestLost?) || (e.Resent? && e.request.ExtendRequest?))
    && e.value == v && s.attempts[v].extending > 0
  }

  /**
   * The lease of v, due at deadline, is kept up through the steps: the clock never passes the deadline, each
   * Extend that reaches the server moves it on by at least a millisecond, and neither a Release nor an operator
   * ends it. Only the clock and the calls of v are consulted, not the keys.
   */
  ghost predicate Covered(s: State, v: string, deadline: Option<int>, es: seq<Step>)
    requires v in s.attempts
    decreases |es|
  {
    if es == [] then true else
      var e := es[0];
      StepKeepsRecord(s, e, v);
      && Covers(s, v, deadline, e)
      && Covered(Apply(s, e), v, NextDeadline(s, v, deadline, e), es[1..])
  }

  function NextDeadline(s: State, v: string, deadline: Option<int>, e: Step): Option<int>
    requires v in s.attempts
  {
    if Renews(s, e, v) then Some(s.store.now + ExtendMillis(s.attempts[v].ttl)) else deadline
  }

  predicate LeasedUntil(s: State, v: string, deadline: Option<int>) {
    v in s.attempts && s.attempts[v].key in s.store.db && s.store.db[s.attempts[v].key] == Lease(v, deadline)
  }

  /** The step keeps the lease of v, due at deadline, up. */
  predicate Covers(s: State, v: string, deadline: Option<int>, e: Step)
    requires v in s.attempts
  {
    && (e.Clock? ==> deadline.None? || s.store.now + e.ms <= deadline.value)
    && !Unlocks(s, e, v)
    && !(e.OperatorDel? && e.key == s.attempts[v].key)
    && (Renews(s, e, v) ==> ExtendMillis(s.attempts[v].ttl) > 0)
  }

  /** The lease of v is in force until deadline, which has not passed. */
  predicate InForce(s: State, v: string, deadline: Option<int>) {
    LeasedUntil(s, v, deadline) && (deadline.Some? ==> s.store.now <= deadline.value)
  }

  lemma StepCovered(s: State, v: string, deadline: Option<int>, e: Step)
    requires Inv(s) && InForce(s, v, deadline)
    ensures v in Apply(s, e).attempts
    ensures if Covers(s, v, deadline, e) then InForce(Apply(s, e), v, NextDeadline(s, v, deadline, e))
            else !OwnsKey(Apply(s, e), v)
  {
    hide Inv, Incr, IncrReply, ReleaseScript, ExtendScript, ExtendMillis, SetMillis, KeyFor, FenceKey, IsHolderValue, Accepts, Reply;
    if e.ReleaseRun? || e.ExtendRun? || (e.Resent? && !e.request.IncrRequest?) {
      ScriptCovered(s, v, deadline, e);
    } else if e.IncrCall? || e.Resent? {
      if e.value in s.attempts { LeaseIsNoCounter(s, v, deadline, s.attempts[e.value].counter); }
    }
  }

  lemma LeaseIsNoCounter(s: State, v: string, deadline: Option<int>, c: string)
    requires LeasedUntil(s, v, deadline)
    ensures LeasedUntil(s.(store := Incr(s.store, c)), v, deadline) && Incr(s.store, c).now == s.store.now
  {
  }

  /** What the scripts run for x do to the lease of v. */
  lemma ScriptsOnLease(st: Store, key: string, v: string, deadline: Option<int>, k: string, x: string, ms: nat)
    requires key in st.db && st.db[key] == Lease(v, deadline)
    requires Matches(st, k, x) <==> Owns(st, k, x)
    ensures var released := ReleaseScript(st, k, x);
      released.now == st.now && if k == key && x == v then key !in released.db else key in released.db && released.db[key] == st.db[key]
    ensures var extended := ExtendScript(st, k, x, ms);
      extended.now == st.now
      && if k == key && x == v then (if ms == 0 then key !in extended.db
                                     else key in extended.db && extended.db[key] == Lease(v, Some(st.now + ms)))
         else key in extended.db && extended.db[key] == st.db[key]
  {
    hide Reply;
  }

  /** A script step runs its script, or does nothing. */
  lemma ScriptStore(s: State, e: Step)
    requires e.ReleaseRun? || e.ExtendRun? || (e.Resent? && !e.request.IncrRequest?)
    ensures var x := e.value;
      Apply(s, e).store ==
        if x !in s.attempts then s.store
        else if Unlocks(s, e, x) then ReleaseScript(s.store, s.attempts[x].key, x)
        else if Renews(s, e, x) then ExtendScript(s.store, s.attempts[x].key, x, ExtendMillis(s.attempts[x].ttl))
        else s.store
  {
    hide ExtendMillis, ReleaseScript, ExtendScript;
  }

  lemma ScriptCovered(s: State, v: string, deadline: Option<int>, e: Step)
    requires Inv(s) && InForce(s, v, deadline)
    requires e.ReleaseRun? || e.ExtendRun? || (e.Resent? && !e.request.IncrRequest?)
    ensures v in Apply(s, e).attempts
    ensures if Covers(s, v, deadline, e) then InForce(Apply(s, e), v, NextDeadline(s, v, deadline, e))
            else !OwnsKey(Apply(s, e), v)
  {
    hide ExtendMillis, Inv, Matches, ReleaseScript, ExtendScript, Apply;
    var x := e.value;
    LeasedMeansOwned(s, v, deadline);
    OwnScripts(s, v, x);
    ScriptStore(s, e);
    StepKeepsRecord(s, e, v);
    hide SameRecord;
    if x in s.attempts {
      ScriptsOnLease(s.store, s.attempts[v].key, v, deadline, s.attempts[x].key, x, ExtendMillis(s.attempts[x].ttl));
    }
  }

  /** Scripts run for x leave the lease of another v alone, and act on it when x is v. */
  lemma OwnScripts(s: State, v: string, x: string)
    requires Inv(s) && OwnsKey(s, v)
    ensures x in s.attempts ==>
      (Matches(s.store, s.attempts[x].key, x) <==> Owns(s.store, s.attempts[x].key, x))
  {
    hide CountersFit, IsHolderValue, Matches, Owns, Inv;
    if x in s.attempts {
      ValueIsHolder(s, x);
      MatchesMeansOwns(s.store, s.attempts[x].key, x);
    }
  }

  /** The holder still owns its key after a run exactly when the run kept its lease covered. */
  lemma {:induction false} LeaseKeptExactly(s: State, v: string, deadline: Option<int>, es: seq<Step>)
    requires Inv(s) && InForce(s, v, deadline)
    ensures Covered(s, v, deadline, es) <==> OwnsKey(Run(s, es), v)
    decreases |es|
  {
    hide Inv, Apply, Unlocks, Renews, NextDeadline, LeasedUntil;
    LeasedMeansOwned(s, v, deadline);
    OwnedIsKnown(s, v);
    if es != [] {
      var e := es[0];
      var s' := Apply(s, e);
      hide OwnsKey;
      StepCovered(s, v, deadline, e);
      StepKeeps(s, e);
      if OwnsKey(s', v) {
        LeaseKeptExactly(s', v, NextDeadline(s, v, deadline, e), es[1..]);
      } else {
        LostIsLost(s', es[1..], v);
        if Covered(s, v, deadline, es) { NotLostWhenCovered(s, v, deadline, es); }
      }
    }
  }

  lemma LeasedMeansOwned(s: State, v: string, deadline: Option<int>)
    requires LeasedUntil(s, v, deadline)
    ensures OwnsKey(s, v)
  {
  }

  lemma NotLostWhenCovered(s: State, v: string, deadline: Option<int>, es: seq<Step>)
    requires Inv(s) && InForce(s, v, deadline)
    requires es != [] && Covered(s, v, deadline, es)
    ensures OwnsKey(Apply(s, es[0]), v)
  {
    hide Inv, Apply, Unlocks, Renews, NextDeadline;
    StepCovered(s, v, deadline, es[0]);
  }

  // ---------------------------------------------------------------- how long a lease is

  /** A SET NX that the server runs on a free key. */
  predicate Granted(s: State, e: Step) {
    && e.SetNx? && !e.link.RequestLost? && e.value !in s.attempts && IsHolderValue(e.value)
    && KeyFor(e.prefix, e.name, e.slot) !in s.store.db
  }

  /** Those are the ones that take their key. */
  lemma GrantedExactly(s: State, e: Step)
    requires e.SetNx?
    ensures Granted(s, e) <==> e.value !in s.attempts && OwnsKey(Apply(s, e), e.value)
  {
    hide KeyFor, FenceKey;
  }

  /** The lease a SET NX gives: the TTL in whole milliseconds, at least one, or for ever. */
  lemma LeaseOfTtl(s: State, e: Step)
    requires Granted(s, e)
    ensures InForce(Apply(s, e), e.value,
              if e.ttl == 0 then None else Some(s.store.now + if e.ttl < 1_000_000 then 1 else e.ttl / 1_000_000))
  {
    hide KeyFor, FenceKey;
  }

  /** Over any run from a granted SET NX on, its holder owns the key at the end exactly when that lease was covered. */
  lemma LeaseKeptFromGrant(es: seq<Step>, e: Step, later: seq<Step>)
    requires e.SetNx? && Granted(Run(Initial(), es), e)
    ensures var s := Run(Initial(), es); var s' := Apply(s, e);
      e.value in s'.attempts
      && (Covered(s', e.value, if e.ttl == 0 then None else Some(s.store.now + if e.ttl < 1_000_000 then 1 else e.ttl / 1_000_000), later)
          <==> OwnsKey(Run(s', later), e.value))
  {
    hide Run, Covered, Apply, Inv, InForce, Granted, OwnsKey;
    var s := Run(Initial(), es);
    ReachableInv(es);
    StepKeeps(s, e);
    LeaseOfTtl(s, e);
    var deadline := if e.ttl == 0 then None else Some(s.store.now + if e.ttl < 1_000_000 then 1 else e.ttl / 1_000_000);
    InForceIsKnown(Apply(s, e), e.value, deadline);
    LeaseKeptExactly(Apply(s, e), e.value, deadline, later);
  }

  lemma InForceIsKnown(s: State, v: string, deadline: Option<int>)
    requires InForce(s, v, deadline)
    ensures v in s.attempts
  {
  }

  /** Milliseconds fit into nanoseconds exactly when they fit into their whole milliseconds. */
  lemma WholeMillis(ms: nat, ttl: nat)
    ensures ms <= ttl / 1_000_000 <==> ms * 1_000_000 <= ttl
  {
  }

  /** Left alone after its SET NX, a holder owns its key for the TTL, and for a millisecond at the least. */
  lemma LeaseLastsItsTtl(s: State, e: Step, ms: nat)
    requires e.SetNx? && Granted(s, e)
    ensures OwnsKey(Apply(Apply(s, e), Clock(ms)), e.value) <==> e.ttl == 0 || ms * 1_000_000 <= e.ttl || ms <= 1
  {
    hide KeyFor, FenceKey, Apply, Granted;
    LeaseOfTtl(s, e);
    WholeMillis(ms, e.ttl);
    var deadline := if e.ttl == 0 then None else Some(s.store.now + if e.ttl < 1_000_000 then 1 else e.ttl / 1_000_000);
    SetNxTakesNoTime(s, e);
    ClockOnLease(Apply(s, e), e.value, deadline, ms);
  }

  lemma SetNxTakesNoTime(s: State, e: Step)
    requires e.SetNx?
    ensures Apply(s, e).store.now == s.store.now
  {
    hide KeyFor, FenceKey;
  }

  lemma ClockOnLease(s: State, v: string, deadline: Option<int>, ms: nat)
    requires InForce(s, v, deadline)
    ensures OwnsKey(Apply(s, Clock(ms)), v) <==> deadline.None? || s.store.now + ms <= deadline.value
  {
  }

  /** Left alone after an Extend that found its value, a holder owns its key for the TTL, and below a millisecond not at all. */
  lemma ExtendLastsItsTtl(s: State, v: string, link: Link, ms: nat)
    requires OwnsKey(s, v) && s.attempts[v].extending > 0 && !link.RequestLost?
    ensures OwnsKey(Apply(Apply(s, ExtendRun(v, link)), Clock(ms)), v) <==>
      s.attempts[v].ttl >= 1_000_000 && ms * 1_000_000 <= s.attempts[v].ttl
  {
    hide DecInt;
    WholeMillis(ms, s.attempts[v].ttl);
  }

  // ---------------------------------------------------------------- calls that run alone

  /** A Release that nobody interrupts frees the key if the holder still owns it, and tells whether it did. */
  lemma ReleaseAlone(es: seq<Step>, v: string)
    requires var s := Run(Initial(), es);
      v in s.attempts && !s.attempts[v].orphan && s.attempts[v].token.Some? && !s.attempts[v].released
    ensures var s := Run(Initial(), es); var s1 := Apply(s, ReleaseFlag(v)); var s2 := Apply(s1, ReleaseRun(v, Fine));
      && Answer(s1, ReleaseRun(v, Fine)) == Some(OwnsKey(s, v))
      && s2.store.db == if OwnsKey(s, v) then s.store.db - {s.attempts[v].key} else s.store.db
  {
    hide Run, Inv, IsHolderValue, CountersFit, Matches;
    ReachableInv(es);
    var s := Run(Initial(), es);
    ValueIsHolder(s, v);
    MatchesMeansOwns(s.store, s.attempts[v].key, v);
  }

  /** An Extend that nobody interrupts tells whether the holder owned its key, and changes no other. */
  lemma ExtendAlone(es: seq<Step>, v: string)
    requires var s := Run(Initial(), es);
      v in s.attempts && !s.attempts[v].orphan && s.attempts[v].token.Some? && !s.attempts[v].released
    ensures var s := Run(Initial(), es); var s1 := Apply(s, ExtendCheck(v)); var s2 := Apply(s1, ExtendRun(v, Fine));
      && Answer(s1, ExtendRun(v, Fine)) == Some(OwnsKey(s, v))
      && s2.store.db - {s.attempts[v].key} == s.store.db - {s.attempts[v].key}
      && (OwnsKey(s2, v) <==> OwnsKey(s, v) && s.attempts[v].ttl >= 1_000_000)
  {
    hide Run, Inv, IsHolderValue, CountersFit, Reply;
    ReachableInv(es);
    var s := Run(Initial(), es);
    ValueIsHolder(s, v);
    MatchesMeansOwns(s.store, s.attempts[v].key, v);
  }

  /** The request e with another fate. */
  function Via(e: Step, link: Link): Step {
    match e
    case SetNx(v, prefix, name, slot, ttl, _) => SetNx(v, prefix, name, slot, ttl, link)
    case IncrCall(v, _) => IncrCall(v, link)
    case ReleaseRun(v, _) => ReleaseRun(v, link)
    case ExtendRun(v, _) => ExtendRun(v, link)
    case _ => e
  }

  /** A lost request does nothing to the store, a lost reply does not undo what was done; neither is ever answered. */
  lemma LinksDecide(s: State, e: Step)
    requires e.SetNx? || e.IncrCall? || e.ReleaseRun? || e.ExtendRun?
    ensures Apply(s, Via(e, RequestLost)).store == s.store
    ensures Apply(s, Via(e, ReplyLost)).store == Apply(s, Via(e, Fine)).store
    ensures Answer(s, Via(e, RequestLost)) == Answer(s, Via(e, ReplyLost)) == None
  {
    hide KeyFor, FenceKey, SetNX, Incr, ReleaseScript, ExtendScript, Matches;
  }

  /** An INCR that is sent again counts twice, and its caller gets the second number. */
  lemma ResentIncrCountsTwice(s: State, v: string, n: int)
    requires v in s.attempts && !s.attempts[v].orphan && s.attempts[v].token.None?
    requires Counts(s.store, s.attempts[v].counter, n) && n < 0x7FFF_FFFF_FFFF_FFFE
    ensures var s' := Apply(Apply(s, Resent(v, IncrRequest)), IncrCall(v, Fine));
      Counts(s'.store, s.attempts[v].counter, n + 2) && v in s'.attempts && s'.attempts[v].token == Some(n + 2)
  {
    hide OwnsKey;
  }

  /** An Extend that is sent again, still unanswered, has re-timed the key as an answered one does. */
  lemma ResentExtendRuns(s: State, v: string)
    requires v in s.attempts && s.attempts[v].extending > 0
    ensures Apply(s, Resent(v, ExtendRequest)).store == Apply(s, ExtendRun(v, Fine)).store
    ensures Apply(s, Resent(v, ExtendRequest)).attempts == s.attempts
  {
    hide ExtendScript;
  }

  /** An operator's DEL takes the key from its holder, and touches no other. */
  lemma OperatorTakes(s: State, v: string)
    requires OwnsKey(s, v)
    ensures var s' := Apply(s, OperatorDel(s.attempts[v].key));
      !OwnsKey(s', v) && s'.store.db == s.store.db - {s.attempts[v].key} && s'.attempts == s.attempts
  {
  }

  /** Over the whole span of a covered lease no other holder's SET NX on that key succeeds. */
  lemma NobodyElseAcquires(s: State, v: string, deadline: Option<int>, es: seq<Step>, i: nat)
    requires Inv(s) && InForce(s, v, deadline)
    requires Covered(s, v, deadline, es)
    requires i < |es| && es[i].SetNx? && KeyFor(es[i].prefix, es[i].name, es[i].slot) == s.attempts[v].key
    ensures Run(s, es[..i + 1]).attempts == Run(s, es[..i]).attempts
  {
    hide Run, Covered, KeyFor, Apply, Inv, LeasedUntil, OwnsKey;
    var mid := Run(s, es[..i]);
    LeaseKeptExactly(s, v, deadline, es);
    LeasedMeansOwned(s, v, deadline);
    assert v in s.attempts by { OwnedIsKnown(s, v); }
    RunKeepsRecord(s, es[..i], v);
    assert es == es[..i] + es[i..];
    RunAppend(s, es[..i], es[i..]);
    if !OwnsKey(mid, v) {
      LostIsLost(mid, es[i..], v);
      assert false;
    }
    RunSnoc(s, es, i);
    TakenKeyRefuses(mid, v, es[i]);
  }

  lemma OwnedIsKnown(s: State, v: string)
    requires OwnsKey(s, v)
    ensures v in s.attempts
  {
  }

  lemma TakenKeyRefuses(s: State, v: string, e: Step)
    requires OwnsKey(s, v) && e.SetNx? && KeyFor(e.prefix, e.name, e.slot) == s.attempts[v].key
    ensures Apply(s, e).attempts == s.attempts
  {
    hide KeyFor;
  }

  /**
   * An Extend that finds the holder's value reports success, but keeps the lock exactly when the TTL is at least a
   * millisecond: below that PEXPIRE gets zero and deletes the key.
   */
  lemma ExtendKeepsExactly(st: Store, key: string, v: string, ttl: nat)
    requires Owns(st, key, v)
    ensures Matches(st, key, v)
    ensures Owns(ExtendScript(st, key, v, ExtendMillis(ttl)), key, v) <==> ttl >= NS_PER_MS
  {
    hide DecInt;
  }

  // ---------------------------------------------------------------- tokens

  /** In every run, tokens of one name differ and are ordered as the INCR calls that produced them, across slots. */
  lemma TokensFollowIncr(es: seq<Step>, u: string, w: string)
    requires var s := Run(Initial(), es);
      u in s.attempts && w in s.attempts && u != w && s.attempts[u].counter == s.attempts[w].counter
      && Tokened(s.attempts[u]) && Tokened(s.attempts[w])
    ensures var s := Run(Initial(), es); var a, b := s.attempts[u], s.attempts[w];
      a.token.value != b.token.value && a.incrAt != b.incrAt && (a.token.value < b.token.value <==> a.incrAt < b.incrAt)
  {
    hide Run, OwnerIsLast, BeganDiffer, LeasesOk, TokensOk;
    ReachableInv(es);
    var s := Run(Initial(), es);
    assert Ordered(s.attempts[u], s.attempts[w]);
  }

  /** Successive owners of one key of one name, both with a token. */
  predicate Successive(s: State, u: string, w: string) {
    && u in s.attempts && w in s.attempts
    && s.attempts[u].key == s.attempts[w].key && s.attempts[u].counter == s.attempts[w].counter
    && s.attempts[u].began < s.attempts[w].began
  }

  /** Tokens increase in ownership order; an INCR that ran after its key was lost is the only exception. */
  lemma TokensFollowOwnership(es: seq<Step>, u: string, w: string)
    requires var s := Run(Initial(), es);
      Successive(s, u, w) && Tokened(s.attempts[u]) && Tokened(s.attempts[w])
    ensures var s := Run(Initial(), es);
      s.attempts[u].onTime ==> s.attempts[u].token.value < s.attempts[w].token.value
  {
    hide Run, OwnerIsLast, BeganDiffer, LeasesOk, TokensOk;
    ReachableInv(es);
    var s := Run(Initial(), es);
    assert Ordered(s.attempts[u], s.attempts[w]) && OnTimeFirst(s.attempts[u], s.attempts[w]);
  }

  // ---------------------------------------------------------------- fencing

  lemma {:induction false} HighestGrows(s: State, es: seq<Step>, c: string)
    requires c in s.highest
    ensures c in Run(s, es).highest && Run(s, es).highest[c] >= s.highest[c]
    decreases |es|
  {
    hide Apply;
    if es != [] {
      StepGrowsHighest(s, es[0], c);
      HighestGrows(Apply(s, es[0]), es[1..], c);
    }
  }

  lemma StepGrowsHighest(s: State, e: Step, c: string)
    requires c in s.highest
    ensures c in Apply(s, e).highest && Apply(s, e).highest[c] >= s.highest[c]
  {
    hide DoSetNx, Tick, ReleaseScript, ExtendScript, Incr, IncrReply, OwnsKey;
    if e.SetNx? { SetNxKeepsHighest(s, e); }
  }

  lemma SetNxKeepsHighest(s: State, e: Step)
    requires e.SetNx?
    ensures DoSetNx(s, e).highest == s.highest
  {
    hide SetNX, KeyFor, FenceKey;
  }

  /** The run from here on, after the downstream store took a write of w. */
  function AfterWrite(es: seq<Step>, w: string, later: seq<Step>): State {
    Run(Apply(Run(Initial(), es), FencedWrite(w)), later)
  }

  /**
   * Fencing end to end: once the downstream store took a write of a later owner with a token, it never takes a
   * write of an earlier owner of that key whose INCR, if it brought a token, ran while it owned the key.
   */
  lemma StaleWritesAreFenced(es: seq<Step>, w: string, later: seq<Step>, u: string)
    requires Accepts(Run(Initial(), es), w) && Tokened(Run(Initial(), es).attempts[w])
    requires var s := AfterWrite(es, w, later);
      Successive(s, u, w) && (Tokened(s.attempts[u]) ==> s.attempts[u].onTime)
    ensures !Accepts(AfterWrite(es, w, later), u)
  {
    hide Run, TokenOk;
    var s1 := Run(Initial(), es);
    var s2 := Apply(s1, FencedWrite(w));
    var s3 := Run(s2, later);
    hide Apply;
    var c := s1.attempts[w].counter;
    assert c in s2.highest && s2.highest[c] == s1.attempts[w].token.value by { WriteRecordsToken(s1, w); }
    StepKeepsRecord(s1, FencedWrite(w), w);
    RunKeepsRecord(s2, later, w);
    HighestGrows(s2, later, c);
    WholeRun(es, w, later);
    var all := es + [FencedWrite(w)] + later;
    TokenIsPositive(all, w);
    if Tokened(s3.attempts[u]) {
      TokensFollowOwnership(all, u, w);
    }
  }

  lemma TokenIsPositive(es: seq<Step>, w: string)
    requires w in Run(Initial(), es).attempts && Tokened(Run(Initial(), es).attempts[w])
    ensures Run(Initial(), es).attempts[w].token.value > 0
  {
    hide Run, OwnerIsLast, BeganDiffer, LeasesOk, PairsOk;
    ReachableInv(es);
    assert TokenOk(Run(Initial(), es), Run(Initial(), es).attempts[w]);
  }

  lemma WriteRecordsToken(s: State, w: string)
    requires Accepts(s, w)
    ensures s.attempts[w].counter in Apply(s, FencedWrite(w)).highest
    ensures Apply(s, FencedWrite(w)).highest[s.attempts[w].counter] == s.attempts[w].token.value
  {
  }

  lemma WholeRun(es: seq<Step>, w: string, later: seq<Step>)
    ensures AfterWrite(es, w, later) == Run(Initial(), es + [FencedWrite(w)] + later)
  {
    hide Apply, Run;
    RunAppend(Initial(), es + [FencedWrite(w)], later);
    RunAppend(Initial(), es, [FencedWrite(w)]);
    RunOne(Run(Initial(), es), FencedWrite(w));
  }

  lemma RunOne(s: State, e: Step)
    ensures Run(s, [e]) == Apply(s, e)
  {
    hide Apply;
    assert [e][1..] == [];
    assert Run(Apply(s, e), []) == Apply(s, e);
  }

  /** The downstream store takes a first write, and every write of a token that is not below the highest it took. */
  lemma FencedStoreTakes(s: State, v: string)
    requires v in s.attempts && s.attempts[v].token.Some?
    ensures s.attempts[v].counter !in s.highest ==> Accepts(s, v)
    ensures s.attempts[v].counter in s.highest ==>
      (Accepts(s, v) <==> s.attempts[v].token.value >= s.highest[s.attempts[v].counter])
    ensures Accepts(s, v) ==> Accepts(Apply(s, FencedWrite(v)), v)
  {
  }

  /** Right after a later owner's write, an earlier owner's write is taken exactly when its INCR ran after the later one's. */
  lemma FencingExactly(es: seq<Step>, u: string, w: string)
    requires var s := Run(Initial(), es);
      Accepts(s, w) && Successive(s, u, w) && Tokened(s.attempts[u]) && Tokened(s.attempts[w])
    ensures var s := Run(Initial(), es);
      Accepts(Apply(s, FencedWrite(w)), u) <==> s.attempts[u].incrAt > s.attempts[w].incrAt
  {
    hide Run, TokenOk;
    var s := Run(Initial(), es);
    TokensFollowIncr(es, u, w);
    WriteRecordsToken(s, w);
  }

  const FIRST := "aaaaaaaaaaaaaaaaaaaaaaaaaaaaaaaa"
  const SECOND := "bbbbbbbbbbbbbbbbbbbbbbbbbbbbbbbb"

  /** A run in which the first owner is paused between its SET NX and its INCR for longer than its TTL. */
  function LateIncrRun(): seq<Step> {
    [SetNx(FIRST, "p", "n", -1, 1_000_000, Fine), Clock(2), SetNx(SECOND, "p", "n", -1, 1_000_000, Fine),
     IncrCall(SECOND, Fine), IncrCall(FIRST, Fine)]
  }

  /** Then the downstream store takes the second owner's write, and after it the first owner's stale one. */
  lemma LateIncrDefeatsFencing()
    ensures var s := Run(Initial(), LateIncrRun());
      && Successive(s, FIRST, SECOND) && !s.attempts[FIRST].onTime
      && Accepts(s, SECOND) && Tokened(s.attempts[SECOND])
      && Accepts(Apply(s, FencedWrite(SECOND)), FIRST)
  {
    hide Run, KeyFor, FenceKey, FIRST, SECOND, IsHolderValue, DecInt;
    var es := LateIncrRun();
    var k, c := KeyFor("p", "n", -1), FenceKey("p", "n");
    KeysOfExample();
    var s0 := Initial();
    var s1 := Apply(s0, es[0]);
    var s2 := Apply(s1, es[1]);
    var s3 := Apply(s2, es[2]);
    var s4 := Apply(s3, es[3]);
    var s5 := Apply(s4, es[4]);
    assert s1.store.db == map[k := Lease(FIRST, Some(1))] && s1.store.now == 0;
    assert s2.store.db == map[] && s2.store.now == 2;
    assert s3.store.db == map[k := Lease(SECOND, Some(3))];
    assert s4.store.db == map[k := Lease(SECOND, Some(3)), c := Counter(1)];
    assert s5.store.db == map[k := Lease(SECOND, Some(3)), c := Counter(2)];
    RunFive(s0, es);
  }

  lemma KeysOfExample()
    ensures KeyFor("p", "n", -1) != FenceKey("p", "n") && FIRST != SECOND && IsHolderValue(FIRST) && IsHolderValue(SECOND)
  {
    assert FIRST[0] != SECOND[0];
    ColonFreeKeysDiffer("p", "n", -1, "n", -1);
  }

  lemma RunFive(s: State, es: seq<Step>)
    requires |es| == 5
    ensures Run(s, es) == Apply(Apply(Apply(Apply(Apply(s, es[0]), es[1]), es[2]), es[3]), es[4])
  {
    hide Apply;
    assert es == [es[0]] + [es[1]] + [es[2]] + [es[3]] + [es[4]];
    hide Run;
    var a, b, c, d, e := [es[0]], [es[1]], [es[2]], [es[3]], [es[4]];
    RunAppend(s, a + b + c + d, e);
    RunAppend(s, a + b + c, d);
    RunAppend(s, a + b, c);
    RunAppend(s, a, b);
    var s1 := Apply(s, es[0]);
    RunOne(s, es[0]);
    RunOne(s1, es[1]);
    RunOne(Apply(s1, es[1]), es[2]);
    RunOne(Apply(Apply(s1, es[1]), es[2]), es[3]);
    RunOne(Apply(Apply(Apply(s1, es[1]), es[2]), es[3]), es[4]);
  }

  // ---------------------------------------------------------------- colliding names

  lemma StepKeepsCounter(s: State, e: Step, k: string)
    requires Inv(s) && k in s.store.db && s.store.db[k].Counter?
    ensures k in Apply(s, e).store.db && Apply(s, e).store.db[k].Counter?
  {
    hide KeyFor, FenceKey, ExtendMillis, SetMillis, Inv, CountersFit, IsHolderValue;
    match e
    case ReleaseRun(x, _) =>
      if x in s.attempts { ValueIsHolder(s, x); MatchesMeansOwns(s.store, s.attempts[x].key, x); }
    case ExtendRun(x, _) =>
      if x in s.attempts { ValueIsHolder(s, x); MatchesMeansOwns(s.store, s.attempts[x].key, x); }
    case Resent(x, _) =>
      if x in s.attempts { ValueIsHolder(s, x); MatchesMeansOwns(s.store, s.attempts[x].key, x); }
    case _ =>
  }

  lemma {:induction false} RunKeepsCounter(s: State, es: seq<Step>, k: string)
    requires Inv(s) && k in s.store.db && s.store.db[k].Counter?
    ensures k in Run(s, es).store.db && Run(s, es).store.db[k].Counter?
    decreases |es|
  {
    hide Inv, Apply;
    if es != [] {
      StepKeepsCounter(s, es[0], k);
      StepKeeps(s, es[0]);
      RunKeepsCounter(Apply(s, es[0]), es[1..], k);
    }
  }

  /** Once a name has counted a token, the lock called name:fence under the same prefix can never be acquired again. */
  lemma FenceNameIsLockedOut(es: seq<Step>, prefix: string, name: string, later: seq<Step>, v: string, ttl: nat, link: Link)
    requires var s := Run(Initial(), es);
      FenceKey(prefix, name) in s.store.db && s.store.db[FenceKey(prefix, name)].Counter?
    ensures var s := Run(Run(Initial(), es), later);
      Apply(s, SetNx(v, prefix, name + ":fence", -1, ttl, link)).attempts == s.attempts
  {
    hide Run, FenceKey, LockKey;
    ReachableInv(es);
    LockMeetsFence(prefix, name + ":fence", name);
    RunKeepsCounter(Run(Initial(), es), later, FenceKey(prefix, name));
  }
}
