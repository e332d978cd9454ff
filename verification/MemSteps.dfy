// memlock interleaved: Acquire counts itself in under the mutex and takes its token after the mutex is free;
// Release wins a flag first and counts itself out under the mutex later.

module MemSteps {
  import opened Decimal
  import opened MemLock

  /** Counted in without a token yet, holding, released but not yet counted out, counted out. */
  datatype Phase = Counted | Holding | Leaving | Gone

  /** A successful Acquire: its bound, the step it was counted in, and which Add of its name's counter it made (0: none yet). */
  datatype Call = Call(name: string, bound: int, entered: nat, phase: Phase, ordinal: nat, token: nat)

  /** adds counts the Adds per name without wrapping around. */
  datatype State = State(
    state: map<string, int>,
    tokens: map<string, nat>,
    adds: map<string, nat>,
    calls: map<nat, Call>,
    steps: nat)

  datatype Step =
    | Enter(id: nat, name: string, n: int)
    | Bump(id: nat)
    | ReleaseFlag(id: nat)
    | CountOut(id: nat)

  function Initial(): State {
    State(map[], map[], map[], map[], 0)
  }

  function Held(s: State, name: string): int {
    if name in s.state then s.state[name] else 0
  }

  function Adds(s: State, name: string): nat {
    if name in s.adds then s.adds[name] else 0
  }

  function Counter(s: State, name: string): nat {
    if name in s.tokens then s.tokens[name] else 0
  }

  /** The mutex section of Acquire. */
  function DoEnter(s: State, id: nat, name: string, n: int): State {
    var tokens := if name in s.tokens then s.tokens else s.tokens[name := 0];
    if id in s.calls then s
    else if Held(s, name) >= Clamp(n) then
      s.(state := if name in s.state then s.state else s.state[name := 0], tokens := tokens)
    else
      s.(state := s.state[name := Held(s, name) + 1], tokens := tokens,
         calls := s.calls[id := Call(name, Clamp(n), s.steps, Counted, 0, 0)])
  }

  /** tk.Add(1), after the mutex is free. */
  function DoBump(s: State, id: nat): State
    requires id in s.calls && s.calls[id].phase.Counted?
  {
    var c := s.calls[id];
    var token := Add1(Counter(s, c.name));
    s.(tokens := s.tokens[c.name := token], adds := s.adds[c.name := Adds(s, c.name) + 1],
       calls := s.calls[id := c.(phase := Holding, ordinal := Adds(s, c.name) + 1, token := token)])
  }

  /** The mutex section of Release. */
  function DoCountOut(s: State, id: nat): State
    requires id in s.calls && s.calls[id].phase.Leaving?
  {
    var c := s.calls[id];
    var left := Held(s, c.name) - 1;
    s.(state := if c.name !in s.state then s.state
                else if left <= 0 then s.state - {c.name}
                else s.state[c.name := left],
       calls := s.calls[id := c.(phase := Gone)])
  }

  function Effect(s: State, e: Step): State {
    match e
    case Enter(id, name, n) => DoEnter(s, id, name, n)
    case Bump(id) => if id in s.calls && s.calls[id].phase.Counted? then DoBump(s, id) else s
    case ReleaseFlag(id) =>
      if id in s.calls && s.calls[id].phase.Holding? then s.(calls := s.calls[id := s.calls[id].(phase := Leaving)]) else s
    case CountOut(id) => if id in s.calls && s.calls[id].phase.Leaving? then DoCountOut(s, id) else s
  }

  function Apply(s: State, e: Step): State {
    Effect(s, e).(steps := s.steps + 1)
  }

  function Run(s: State, es: seq<Step>): State
    decreases |es|
  {
    if es == [] then s else Run(Apply(s, es[0]), es[1..])
  }

  // ---------------------------------------------------------------- the invariant

  /** The calls counted in and not yet counted out. */
  function In(s: State, name: string): set<nat> {
    set id | id in s.calls && s.calls[id].name == name && !s.calls[id].phase.Gone?
  }

  predicate HeldIsCount(s: State, name: string) {
    Held(s, name) == |In(s, name)|
  }

  predicate Bounded(s: State, name: string, most: int) {
    most >= 1 && forall id :: id in s.calls && s.calls[id].name == name ==> s.calls[id].bound <= most
  }

  predicate OrdinalOk(s: State, c: Call) {
    && c.entered < s.steps
    && (c.phase.Counted? <==> c.ordinal == 0)
    && c.ordinal <= Adds(s, c.name) && c.token == c.ordinal % TWO_64
  }

  predicate OrdinalsDiffer(c: Call, d: Call) {
    c.name == d.name && c.ordinal != 0 ==> c.ordinal != d.ordinal
  }

  /** With two bounds of one, the earlier call is gone, and has the smaller ordinal. */
  predicate OneAfterAnother(c: Call, d: Call) {
    c.name == d.name && d.bound == 1 && c.entered < d.entered ==>
      c.phase.Gone? && (d.ordinal != 0 ==> c.ordinal < d.ordinal)
  }

  ghost predicate CountsMatch(s: State) {
    forall name :: HeldIsCount(s, name)
  }

  ghost predicate NoEmptyEntry(s: State) {
    forall name :: name in s.state ==> s.state[name] > 0
  }

  ghost predicate BoundsHold(s: State) {
    forall name, most :: Bounded(s, name, most) ==> Held(s, name) <= most
  }

  ghost predicate Counts(s: State) {
    CountsMatch(s) && NoEmptyEntry(s) && BoundsHold(s)
  }

  predicate CounterMatches(s: State, name: string) {
    Counter(s, name) == Adds(s, name) % TWO_64
  }

  ghost predicate CountersMatch(s: State) {
    forall name :: CounterMatches(s, name)
  }

  ghost predicate OrdinalsOk(s: State) {
    forall id :: id in s.calls ==> OrdinalOk(s, s.calls[id])
  }

  predicate PairOk(c: Call, d: Call) {
    OrdinalsDiffer(c, d) && OneAfterAnother(c, d) && c.entered != d.entered
  }

  ghost predicate PairsOk(s: State) {
    forall i, j :: i in s.calls && j in s.calls && i != j ==> PairOk(s.calls[i], s.calls[j])
  }

  ghost predicate Ordinals(s: State) {
    CountersMatch(s) && OrdinalsOk(s) && PairsOk(s)
  }

  ghost predicate Inv(s: State) {
    Counts(s) && Ordinals(s)
  }

  // ---------------------------------------------------------------- every step keeps the invariant

  /** A call of name is counted in: the table says one more. */
  lemma CountedInKeeps(s: State, s': State, id: nat, c: Call)
    requires Counts(s) && id !in s.calls && !c.phase.Gone? && Held(s, c.name) < c.bound
    requires s'.calls == s.calls[id := c] && s'.state == s.state[c.name := Held(s, c.name) + 1]
    ensures Counts(s')
  {
    hide CountsMatch, NoEmptyEntry, BoundsHold;
    assert CountsMatch(s') by {
      forall m ensures HeldIsCount(s', m) {
        assert HeldIsCount(s, m) by { OneCount(s, m); }
        if m == c.name {
          assert In(s', m) == In(s, m) + {id};
        } else {
          assert In(s', m) == In(s, m);
        }
      }
      CountsMatchIntro(s');
    }
    assert NoEmptyEntry(s') by { GrownEntry(s, s', c); }
    assert BoundsHold(s') by { GrownBounds(s, s', id, c); }
  }

  lemma OneCount(s: State, name: string)
    requires CountsMatch(s)
    ensures HeldIsCount(s, name)
  {
  }

  lemma CountsMatchIntro(s: State)
    requires forall m :: HeldIsCount(s, m)
    ensures CountsMatch(s)
  {
  }

  lemma GrownEntry(s: State, s': State, c: Call)
    requires CountsMatch(s) && NoEmptyEntry(s) && s'.state == s.state[c.name := Held(s, c.name) + 1]
    ensures NoEmptyEntry(s')
  {
    assert HeldIsCount(s, c.name);
    hide In;
  }

  lemma GrownBounds(s: State, s': State, id: nat, c: Call)
    requires BoundsHold(s) && id !in s.calls && Held(s, c.name) < c.bound
    requires s'.calls == s.calls[id := c] && s'.state == s.state[c.name := Held(s, c.name) + 1]
    ensures BoundsHold(s')
  {
    forall m, most | Bounded(s', m, most) ensures Held(s', m) <= most {
      if m == c.name {
        assert s'.calls[id].bound <= most;
      } else {
        assert forall i :: i in s.calls ==> s'.calls[i] == s.calls[i];
        assert Bounded(s, m, most);
      }
    }
  }

  lemma EnterKeepsCounts(s: State, id: nat, name: string, n: int)
    requires Inv(s)
    ensures Counts(Apply(s, Enter(id, name, n)))
  {
    hide Ordinals;
    var s' := Apply(s, Enter(id, name, n));
    if id !in s.calls && Held(s, name) < Clamp(n) {
      hide Counts;
      CountedInKeeps(s, s', id, Call(name, Clamp(n), s.steps, Counted, 0, 0));
    } else {
      SameCalls(s, s');
    }
  }

  lemma SameCalls(s: State, s': State)
    requires Counts(s) && s'.state == s.state && s'.calls.Keys == s.calls.Keys
    requires forall id :: id in s.calls ==>
      s'.calls[id].name == s.calls[id].name && s'.calls[id].bound == s.calls[id].bound
      && (s'.calls[id].phase.Gone? <==> s.calls[id].phase.Gone?)
    ensures Counts(s')
  {
    forall m ensures HeldIsCount(s', m) {
      assert HeldIsCount(s, m);
      assert In(s', m) == In(s, m);
    }
    forall m, most | Bounded(s', m, most) ensures Held(s', m) <= most {
      assert forall i :: i in s.calls ==> i in s'.calls;
      assert Bounded(s, m, most);
    }
  }

  lemma CountOutKeepsCounts(s: State, id: nat)
    requires Counts(s) && id in s.calls && s.calls[id].phase.Leaving?
    ensures Counts(Apply(s, CountOut(id)))
  {
    var s' := Apply(s, CountOut(id));
    var name := s.calls[id].name;
    assert HeldIsCount(s, name);
    assert id in In(s, name);
    assert Held(s', name) == Held(s, name) - 1;
    assert CountsMatch(s') by {
      forall m ensures HeldIsCount(s', m) {
        assert HeldIsCount(s, m);
        if m == name {
          assert In(s', m) == In(s, m) - {id};
        } else {
          assert In(s', m) == In(s, m);
        }
      }
    }
    assert BoundsHold(s') by {
      forall m, most | Bounded(s', m, most) ensures Held(s', m) <= most {
        assert forall i :: i in s.calls ==> i in s'.calls && s'.calls[i].bound == s.calls[i].bound && s'.calls[i].name == s.calls[i].name;
        assert Bounded(s, m, most);
        assert Held(s', m) <= Held(s, m);
      }
    }
  }

  /** A free slot for a bound of one means that everyone before is gone. */
  lemma NobodyIn(s: State, name: string)
    requires CountsMatch(s) && Held(s, name) < 1
    ensures forall i :: i in s.calls && s.calls[i].name == name ==> s.calls[i].phase.Gone?
  {
    assert HeldIsCount(s, name);
    assert forall i :: i in s.calls && s.calls[i].name == name && !s.calls[i].phase.Gone? ==> i in In(s, name);
  }

  lemma EnterKeepsOrdinals(s: State, id: nat, name: string, n: int)
    requires Inv(s)
    ensures Ordinals(Apply(s, Enter(id, name, n)))
  {
    var s' := Apply(s, Enter(id, name, n));
    forall m ensures CounterMatches(s', m) { assert CounterMatches(s, m); }
    forall i | i in s'.calls ensures OrdinalOk(s', s'.calls[i]) {
      assert i in s.calls ==> OrdinalOk(s, s.calls[i]);
    }
    if id !in s.calls && Held(s, name) < Clamp(n) {
      if Clamp(n) == 1 {
        NobodyIn(s, name);
      }
      EnterKeepsPairs(s, id, Call(name, Clamp(n), s.steps, Counted, 0, 0));
    }
  }

  lemma EnterKeepsPairs(s: State, id: nat, c: Call)
    requires OrdinalsOk(s) && PairsOk(s) && id !in s.calls && c.entered == s.steps && c.phase.Counted? && c.ordinal == 0
    requires c.bound == 1 ==> forall i :: i in s.calls && s.calls[i].name == c.name ==> s.calls[i].phase.Gone?
    ensures PairsOk(s.(calls := s.calls[id := c]))
  {
    var calls := s.calls[id := c];
    forall i, j | i in calls && j in calls && i != j ensures PairOk(calls[i], calls[j]) {
      assert i in s.calls ==> OrdinalOk(s, s.calls[i]);
      assert j in s.calls ==> OrdinalOk(s, s.calls[j]);
      assert i in s.calls && j in s.calls ==> PairOk(s.calls[i], s.calls[j]);
    }
  }

  lemma BumpKeepsOrdinals(s: State, id: nat)
    requires Ordinals(s) && id in s.calls && s.calls[id].phase.Counted?
    ensures Ordinals(Apply(s, Bump(id)))
  {
    hide CountersMatch, OrdinalsOk, PairsOk;
    BumpKeepsCounters(s, id);
    BumpKeepsPairs(s, id);
  }

  lemma BumpKeepsCounters(s: State, id: nat)
    requires CountersMatch(s) && OrdinalsOk(s) && id in s.calls && s.calls[id].phase.Counted?
    ensures CountersMatch(Apply(s, Bump(id))) && OrdinalsOk(Apply(s, Bump(id)))
  {
    var s' := Apply(s, Bump(id));
    var c := s.calls[id];
    assert CounterMatches(s, c.name);
    WrapAdd(Adds(s, c.name));
    forall m ensures CounterMatches(s', m) { assert CounterMatches(s, m); }
    forall i | i in s'.calls ensures OrdinalOk(s', s'.calls[i]) { assert OrdinalOk(s, s.calls[i]); }
  }

  lemma BumpKeepsPairs(s: State, id: nat)
    requires OrdinalsOk(s) && PairsOk(s) && id in s.calls && s.calls[id].phase.Counted?
    ensures PairsOk(Apply(s, Bump(id)))
  {
    hide Add1, Counter;
    var s' := Apply(s, Bump(id));
    forall i, j | i in s.calls && j in s.calls && i != j ensures PairOk(s'.calls[i], s'.calls[j]) {
      assert OrdinalOk(s, s.calls[i]) && OrdinalOk(s, s.calls[j]);
      assert PairOk(s.calls[i], s.calls[j]);
    }
  }

  lemma WrapAdd(k: nat)
    ensures (k % TWO_64 + 1) % TWO_64 == (k + 1) % TWO_64
  {
  }

  /** A release moves a call on without touching tokens. */
  lemma PhaseKeepsOrdinals(s: State, s': State, id: nat, phase: Phase)
    requires Ordinals(s) && id in s.calls && (s.calls[id].phase.Holding? || s.calls[id].phase.Leaving?) && !phase.Counted?
    requires s'.calls == s.calls[id := s.calls[id].(phase := phase)] && s'.tokens == s.tokens && s'.adds == s.adds
    requires s'.steps == s.steps + 1
    ensures Ordinals(s')
  {
    assert CountersMatch(s') by {
      forall m ensures CounterMatches(s', m) { assert CounterMatches(s, m); }
    }
    assert OrdinalsOk(s') by {
      forall i | i in s'.calls ensures OrdinalOk(s', s'.calls[i]) { assert OrdinalOk(s, s.calls[i]); }
    }
    assert PairsOk(s') by {
      forall i, j | i in s.calls && j in s.calls && i != j ensures PairOk(s'.calls[i], s'.calls[j]) {
        assert PairOk(s.calls[i], s.calls[j]);
      }
    }
  }

  lemma IdleKeeps(s: State)
    requires Inv(s)
    ensures Inv(s.(steps := s.steps + 1))
  {
    var s' := s.(steps := s.steps + 1);
    SameCalls(s, s');
    forall m ensures CounterMatches(s', m) { assert CounterMatches(s, m); }
  }

  lemma StepKeeps(s: State, e: Step)
    requires Inv(s)
    ensures Inv(Apply(s, e))
  {
    hide Counts, Ordinals, Held, Counter, Adds;
    IdleKeeps(s);
    match e
    case Enter(id, name, n) =>
      EnterKeepsCounts(s, id, name, n);
      EnterKeepsOrdinals(s, id, name, n);
    case Bump(id) =>
      if id in s.calls && s.calls[id].phase.Counted? {
        SameCalls(s, Apply(s, e));
        BumpKeepsOrdinals(s, id);
      }
    case ReleaseFlag(id) =>
      if id in s.calls && s.calls[id].phase.Holding? {
        SameCalls(s, Apply(s, e));
        PhaseKeepsOrdinals(s, Apply(s, e), id, Leaving);
      }
    case CountOut(id) =>
      if id in s.calls && s.calls[id].phase.Leaving? {
        CountOutKeepsCounts(s, id);
        PhaseKeepsOrdinals(s, Apply(s, e), id, Gone);
      }
  }

  lemma {:induction false} RunKeeps(s: State, es: seq<Step>)
    requires Inv(s)
    ensures Inv(Run(s, es))
    decreases |es|
  {
    hide Inv, Apply;
    if es != [] {
      StepKeeps(s, es[0]);
      RunKeeps(Apply(s, es[0]), es[1..]);
    }
  }

  lemma InitialOk()
    ensures Inv(Initial())
  {
    assert forall name :: In(Initial(), name) == {};
  }

  lemma ReachableInv(es: seq<Step>)
    ensures Inv(Run(Initial(), es))
  {
    hide Run, Inv;
    InitialOk();
    RunKeeps(Initial(), es);
  }

  // ---------------------------------------------------------------- calls that run alone

  /** An Acquire that nobody interrupts does what MemLock.Factory.Acquire promises. */
  lemma AcquireAlone(s: State, id: nat, name: string, n: int)
    requires id !in s.calls
    ensures var s' := Run(s, [Enter(id, name, n), Bump(id)]);
      if Held(s, name) < n || Held(s, name) < 1 then
        && s'.state == s.state[name := Held(s, name) + 1]
        && s'.tokens == s.tokens[name := Add1(Counter(s, name))]
        && id in s'.calls
        && s'.calls[id] == Call(name, if n < 1 then 1 else n, s.steps, Holding, Adds(s, name) + 1, Add1(Counter(s, name)))
      else
        s'.state == s.state && s'.calls == s.calls && forall m :: Counter(s', m) == Counter(s, m)
  {
    hide Add1;
    RunTwo(s, Enter(id, name, n), Bump(id));
  }

  /** A Release that nobody interrupts does what MemLock.Holder.Release promises. */
  lemma ReleaseAlone(s: State, id: nat)
    requires Inv(s) && id in s.calls && s.calls[id].phase.Holding?
    ensures var s' := Run(s, [ReleaseFlag(id), CountOut(id)]); var name := s.calls[id].name;
      && id in s'.calls && s'.calls[id].phase.Gone? && s'.tokens == s.tokens
      && Held(s, name) > 0 && Held(s', name) == Held(s, name) - 1 && s'.state - {name} == s.state - {name}
  {
    hide Ordinals;
    var name := s.calls[id].name;
    RunTwo(s, ReleaseFlag(id), CountOut(id));
    assert HeldIsCount(s, name) && id in In(s, name);
  }

  lemma RunTwo(s: State, d: Step, e: Step)
    ensures Run(s, [d, e]) == Apply(Apply(s, d), e)
  {
    hide Apply;
    assert [d, e][1..] == [e] && [e][1..] == [];
    assert Run(Apply(Apply(s, d), e), []) == Apply(Apply(s, d), e);
  }

  // ---------------------------------------------------------------- the table is a count

  /**
   * In every interleaving the table holds, per name, the number of calls counted in and not yet counted out, has no
   * zero or negative entry, and that number never exceeds the largest bound anyone passed.
   */
  lemma TableIsExact(es: seq<Step>, name: string, most: int)
    ensures var s := Run(Initial(), es);
      && Held(s, name) == |In(s, name)|
      && (name in s.state ==> s.state[name] > 0)
      && (Bounded(s, name, most) ==> |In(s, name)| <= most)
  {
    hide Run, Ordinals;
    ReachableInv(es);
    var s := Run(Initial(), es);
    assert HeldIsCount(s, name);
  }

  /** Every Acquire of name in es passes at most k. */
  predicate PassesAtMost(e: Step, name: string, k: int) {
    e.Enter? && e.name == name ==> e.n <= k
  }

  lemma {:induction false} RunKeepsBound(s: State, es: seq<Step>, name: string, k: int)
    requires Bounded(s, name, k) && forall i :: 0 <= i < |es| ==> PassesAtMost(es[i], name, k)
    ensures Bounded(Run(s, es), name, k)
    decreases |es|
  {
    if es != [] {
      assert PassesAtMost(es[0], name, k);
      StepKeepsBound(s, es[0], name, k);
      hide Apply, Bounded, PassesAtMost;
      RunKeepsBound(Apply(s, es[0]), es[1..], name, k);
    }
  }

  lemma StepKeepsBound(s: State, e: Step, name: string, k: int)
    requires Bounded(s, name, k) && PassesAtMost(e, name, k)
    ensures Bounded(Apply(s, e), name, k)
  {
    hide Held, Counter, Adds, Add1;
  }

  /**
   * In every interleaving, if every Acquire of a name passes at most k, at most k calls of that name are counted in and
   * not yet out. When everyone passes 1, or less, that is one.
   */
  lemma NeverMoreThanPassed(es: seq<Step>, name: string, k: int)
    requires k >= 1 && forall i :: 0 <= i < |es| ==> PassesAtMost(es[i], name, k)
    ensures |In(Run(Initial(), es), name)| <= k
  {
    hide Run;
    RunKeepsBound(Initial(), es, name, k);
    TableIsExact(es, name, k);
  }

  // ---------------------------------------------------------------- tokens

  /** With fewer than 2^64 acquires of a name, its tokens are unique, start at 1 and are never 0. */
  lemma TokensAreUnique(es: seq<Step>, i: nat, j: nat)
    requires var s := Run(Initial(), es);
      i in s.calls && j in s.calls && i != j && s.calls[i].name == s.calls[j].name
      && !s.calls[i].phase.Counted? && !s.calls[j].phase.Counted? && Adds(s, s.calls[i].name) < TWO_64
    ensures var s := Run(Initial(), es); s.calls[i].token != s.calls[j].token && 1 <= s.calls[i].token <= Adds(s, s.calls[i].name)
  {
    hide Run, Counts;
    ReachableInv(es);
    var s := Run(Initial(), es);
    assert OrdinalOk(s, s.calls[i]) && OrdinalOk(s, s.calls[j]) && PairOk(s.calls[i], s.calls[j]);
  }

  /**
   * Although tokens are drawn outside the mutex, a singleton caller's token is larger than the token of every call
   * of that name that took a slot before, also when the entry was deleted and re-created in between.
   */
  lemma TokensFollowEntry(es: seq<Step>, i: nat, j: nat)
    requires var s := Run(Initial(), es);
      i in s.calls && j in s.calls && s.calls[i].name == s.calls[j].name && s.calls[j].bound == 1
      && s.calls[i].entered < s.calls[j].entered && !s.calls[j].phase.Counted? && Adds(s, s.calls[j].name) < TWO_64
    ensures var s := Run(Initial(), es); !s.calls[i].phase.Counted? && s.calls[i].token < s.calls[j].token
  {
    hide Run, Counts;
    ReachableInv(es);
    var s := Run(Initial(), es);
    assert OrdinalOk(s, s.calls[i]) && OrdinalOk(s, s.calls[j]) && PairOk(s.calls[i], s.calls[j]);
  }

  /** Call j of this name has drawn none of the first k ordinals. */
  predicate DrawsAfter(s: State, j: nat, name: string, k: nat) {
    j in s.calls && s.calls[j].name == name && s.calls[j].ordinal != 0 ==> s.calls[j].ordinal > k
  }

  lemma StepDrawsAfter(s: State, e: Step, j: nat, name: string, k: nat)
    requires Adds(s, name) >= k && DrawsAfter(s, j, name, k)
    ensures Adds(Apply(s, e), name) >= k && DrawsAfter(Apply(s, e), j, name, k)
  {
    hide Add1, Counter, Held;
  }

  lemma {:induction false} RunDrawsAfter(s: State, es: seq<Step>, j: nat, name: string, k: nat)
    requires Adds(s, name) >= k && DrawsAfter(s, j, name, k)
    ensures DrawsAfter(Run(s, es), j, name, k)
    decreases |es|
  {
    hide Apply, Adds, DrawsAfter;
    if es != [] {
      StepDrawsAfter(s, es[0], j, name, k);
      RunDrawsAfter(Apply(s, es[0]), es[1..], j, name, k);
    }
  }

  lemma StepKeepsOrdinal(s: State, e: Step, i: nat)
    requires i in s.calls && !s.calls[i].phase.Counted?
    ensures i in Apply(s, e).calls && !Apply(s, e).calls[i].phase.Counted?
    ensures Apply(s, e).calls[i].name == s.calls[i].name && Apply(s, e).calls[i].ordinal == s.calls[i].ordinal
  {
    hide Add1, Counter, Held, Adds;
  }

  lemma {:induction false} RunKeepsOrdinal(s: State, es: seq<Step>, i: nat)
    requires i in s.calls && !s.calls[i].phase.Counted?
    ensures i in Run(s, es).calls && !Run(s, es).calls[i].phase.Counted?
    ensures Run(s, es).calls[i].name == s.calls[i].name && Run(s, es).calls[i].ordinal == s.calls[i].ordinal
    decreases |es|
  {
    hide Apply;
    if es != [] {
      StepKeepsOrdinal(s, es[0], i);
      RunKeepsOrdinal(Apply(s, es[0]), es[1..], i);
    }
  }

  /** With any bounds, an Acquire that starts after another of its name returned gets the larger token. */
  lemma TokensFollowCompletion(es: seq<Step>, later: seq<Step>, i: nat, j: nat)
    requires var s := Run(Initial(), es); i in s.calls && !s.calls[i].phase.Counted? && j !in s.calls
    requires var s := Run(Run(Initial(), es), later);
      i in s.calls && j in s.calls && s.calls[i].name == s.calls[j].name && !s.calls[j].phase.Counted?
      && Adds(s, s.calls[j].name) < TWO_64
    ensures var s := Run(Run(Initial(), es), later); s.calls[i].token < s.calls[j].token
  {
    hide Run, Adds, Counts, DrawsAfter, CountersMatch, PairsOk;
    var s := Run(Initial(), es);
    ReachableInv(es);
    RunKeeps(s, later);
    RunKeepsOrdinal(s, later, i);
    var name, k := s.calls[i].name, s.calls[i].ordinal;
    assert OrdinalOk(s, s.calls[i]);
    NotYetDrawn(s, j, name, k);
    RunDrawsAfter(s, later, j, name, k);
    var s' := Run(s, later);
    assert OrdinalOk(s', s'.calls[i]) && OrdinalOk(s', s'.calls[j]);
    DrewAfter(s', j, name, k);
  }

  lemma NotYetDrawn(s: State, j: nat, name: string, k: nat)
    requires j !in s.calls
    ensures DrawsAfter(s, j, name, k)
  {
  }

  lemma DrewAfter(s: State, j: nat, name: string, k: nat)
    requires DrawsAfter(s, j, name, k) && j in s.calls && s.calls[j].name == name && s.calls[j].ordinal != 0
    ensures s.calls[j].ordinal > k
  {
  }

  // ---------------------------------------------------------------- refinement of a counting semaphore

  /** The specification: who holds a slot of which name. */
  datatype Semaphore = Semaphore(live: map<nat, string>)

  datatype SemStep = P(id: nat, name: string, n: int) | V(id: nat) | Idle

  function Holders(m: Semaphore, name: string): set<nat> {
    set id | id in m.live && m.live[id] == name
  }

  function SemApply(m: Semaphore, e: SemStep): Semaphore {
    match e
    case P(id, name, n) => if |Holders(m, name)| < n || |Holders(m, name)| < 1 then m.(live := m.live[id := name]) else m
    case V(id) => m.(live := m.live - {id})
    case Idle => m
  }

  function Abstract(s: State): Semaphore {
    Semaphore(map id | id in s.calls && !s.calls[id].phase.Gone? :: s.calls[id].name)
  }

  /** Counting in is P, counting out is V, and everything between is invisible. */
  function AbstractStep(s: State, e: Step): SemStep {
    match e
    case Enter(id, name, n) => if id in s.calls then Idle else P(id, name, n)
    case CountOut(id) => if id in s.calls && s.calls[id].phase.Leaving? then V(id) else Idle
    case _ => Idle
  }

  lemma EnterRefines(s: State, id: nat, name: string, n: int)
    requires CountsMatch(s)
    ensures Abstract(Apply(s, Enter(id, name, n))) == SemApply(Abstract(s), AbstractStep(s, Enter(id, name, n)))
  {
    hide Clamp;
    assert Holders(Abstract(s), name) == In(s, name);
    assert HeldIsCount(s, name);
    hide Holders, In;
    var s' := Apply(s, Enter(id, name, n));
    if id !in s.calls && Held(s, name) < Clamp(n) {
      assert Abstract(s').live == Abstract(s).live[id := name];
    } else {
      assert Abstract(s').live == Abstract(s).live;
    }
  }

  lemma StepRefines(s: State, e: Step)
    requires Inv(s)
    ensures Abstract(Apply(s, e)) == SemApply(Abstract(s), AbstractStep(s, e))
  {
    hide Ordinals, Counter, Adds, Held, NoEmptyEntry, BoundsHold, Add1;
    match e
    case Enter(id, name, n) => EnterRefines(s, id, name, n);
    case CountOut(id) =>
      if id in s.calls && s.calls[id].phase.Leaving? {
        assert Abstract(Apply(s, e)).live == Abstract(s).live - {id};
      }
    case _ => assert Abstract(Apply(s, e)).live == Abstract(s).live;
  }

  function AbstractSteps(s: State, es: seq<Step>): seq<SemStep>
    decreases |es|
  {
    if es == [] then [] else [AbstractStep(s, es[0])] + AbstractSteps(Apply(s, es[0]), es[1..])
  }

  function SemRun(m: Semaphore, es: seq<SemStep>): Semaphore
    decreases |es|
  {
    if es == [] then m else SemRun(SemApply(m, es[0]), es[1..])
  }

  /** Every run of memlock is a run of the counting semaphore. */
  lemma {:induction false} RunRefines(s: State, es: seq<Step>)
    requires Inv(s)
    ensures Abstract(Run(s, es)) == SemRun(Abstract(s), AbstractSteps(s, es))
    decreases |es|
  {
    hide Inv, Apply, Abstract, SemApply, AbstractStep;
    if es != [] {
      StepRefines(s, es[0]);
      StepKeeps(s, es[0]);
      RunRefines(Apply(s, es[0]), es[1..]);
    }
  }
}
