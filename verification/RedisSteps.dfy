// redislock interleaved: any number of clients, locks and names; the clock, lost messages, an operator's DEL and
// concurrent Release and Extend calls on one holder may come between any two server requests. A downstream store
// that fences writes by token is part of the picture. go-redis sends a request again when its reply is lost: then the
// server has run it already (Resent). A SET NX that is sent again finds the key taken, so that its caller is told
// Locked and the key is an orphan, as after a lost reply.

module RedisSteps {
  import opened Wrappers
  import opened Decimal
  import opened RedisKeys
  import opened RedisStore
  import opened RedisLock

  // ---------------------------------------------------------------- the state

  /**
   * A successful SET NX, identified by its holder value. began and incrAt count steps; token is None until the
   * INCR call returns (0 if it failed); onTime records whether the INCR ran while the attempt owned its key.
   */
  datatype Attempt = Attempt(
    key: string,
    counter: string,
    ttl: nat,
    began: nat,
    orphan: bool,
    token: Option<int>,
    incrAt: nat,
    onTime: bool,
    released: bool,
    releasing: bool,
    unlocked: bool,
    extending: nat)

  datatype State = State(
    store: Store,
    attempts: map<string, Attempt>,
    steps: nat,
    highest: map<string, int>)

  function Initial(): State {
    State(Store(0, map[]), map[], 0, map[])
  }

  datatype Request = IncrRequest | ReleaseRequest | ExtendRequest

  datatype Step =
    | SetNx(value: string, prefix: string, name: string, slot: int, ttl: nat, link: Link)
    | IncrCall(value: string, link: Link)
    | ReleaseFlag(value: string)
    | ReleaseRun(value: string, link: Link)
    | ExtendCheck(value: string)
    | ExtendRun(value: string, link: Link)
    | Resent(value: string, request: Request)
    | Clock(ms: nat)
    | OperatorDel(key: string)
    | FencedWrite(value: string)

  predicate OwnsKey(s: State, v: string) {
    v in s.attempts && Owns(s.store, s.attempts[v].key, v)
  }

  /** The downstream store takes a write unless its token is below the highest seen. */
  predicate Accepts(s: State, v: string) {
    v in s.attempts && s.attempts[v].token.Some?
    && !(s.attempts[v].counter in s.highest && s.attempts[v].token.value < s.highest[s.attempts[v].counter])
  }

  // ---------------------------------------------------------------- the steps

  function Put(s: State, v: string, a: Attempt): State {
    s.(attempts := s.attempts[v := a])
  }

  /** A client's SET NX. If the reply is lost the key is held by nobody until it expires. */
  function DoSetNx(s: State, e: Step): State
    requires e.SetNx?
  {
    var key := KeyFor(e.prefix, e.name, e.slot);
    if e.value in s.attempts || !IsHolderValue(e.value) || e.link.RequestLost? || key in s.store.db then s else
      Put(s.(store := SetNX(s.store, key, e.value, e.ttl)), e.value,
          Attempt(key, FenceKey(e.prefix, e.name), e.ttl, s.steps, e.link.ReplyLost?, None, 0, false, false, false, false, 0))
  }

  function DoIncr(s: State, v: string, link: Link): State
    requires v in s.attempts
  {
    var a := s.attempts[v];
    if a.orphan || a.token.Some? then s else
      var reply := IncrReply(s.store, a.counter);
      var token := if link.Fine? && reply.Some? then reply.value else 0;
      Put(s.(store := if link.RequestLost? then s.store else Incr(s.store, a.counter)), v,
          a.(token := Some(token), incrAt := s.steps, onTime := OwnsKey(s, v)))
  }

  function DoReleaseRun(s: State, v: string, link: Link): State
    requires v in s.attempts
  {
    var a := s.attempts[v];
    if !a.releasing then s
    else if link.RequestLost? then Put(s, v, a.(releasing := false))
    else Put(s.(store := ReleaseScript(s.store, a.key, v)), v, a.(releasing := false, unlocked := true))
  }

  function DoExtendRun(s: State, v: string, link: Link): State
    requires v in s.attempts
  {
    var a := s.attempts[v];
    if a.extending == 0 then s
    else Put(s.(store := if link.RequestLost? then s.store else ExtendScript(s.store, a.key, v, ExtendMillis(a.ttl))), v,
             a.(extending := a.extending - 1))
  }

  /** A request whose reply is lost and that is sent again: the call goes on waiting. */
  function DoResent(s: State, v: string, request: Request): State
    requires v in s.attempts
  {
    var a := s.attempts[v];
    match request
    case IncrRequest => if a.orphan || a.token.Some? then s else s.(store := Incr(s.store, a.counter))
    case ReleaseRequest =>
      if !a.releasing then s else Put(s.(store := ReleaseScript(s.store, a.key, v)), v, a.(unlocked := true))
    case ExtendRequest =>
      if a.extending == 0 then s else s.(store := ExtendScript(s.store, a.key, v, ExtendMillis(a.ttl)))
  }

  /** What the caller of a script is told about finding its value. */
  function Answer(s: State, e: Step): Option<bool> {
    match e
    case ReleaseRun(v, Fine) =>
      if v in s.attempts && s.attempts[v].releasing then Some(Matches(s.store, s.attempts[v].key, v)) else None
    case ExtendRun(v, Fine) =>
      if v in s.attempts && s.attempts[v].extending > 0 then Some(Matches(s.store, s.attempts[v].key, v)) else None
    case _ => None
  }

  predicate CanCall(a: Attempt) {
    !a.orphan && a.token.Some? && !a.released
  }

  function Effect(s: State, e: Step): State {
    match e
    case SetNx(_, _, _, _, _, _) => DoSetNx(s, e)
    case Clock(ms) => s.(store := Tick(s.store, ms))
    case OperatorDel(key) =>
      if key in s.store.db && s.store.db[key].Lease? then s.(store := s.store.(db := s.store.db - {key})) else s
    case IncrCall(v, link) => if v in s.attempts then DoIncr(s, v, link) else s
    case ReleaseFlag(v) =>
      if v in s.attempts && CanCall(s.attempts[v]) then Put(s, v, s.attempts[v].(released := true, releasing := true)) else s
    case ReleaseRun(v, link) => if v in s.attempts then DoReleaseRun(s, v, link) else s
    case ExtendCheck(v) =>
      if v in s.attempts && CanCall(s.attempts[v]) then Put(s, v, s.attempts[v].(extending := s.attempts[v].extending + 1)) else s
    case ExtendRun(v, link) => if v in s.attempts then DoExtendRun(s, v, link) else s
    case Resent(v, request) => if v in s.attempts then DoResent(s, v, request) else s
    case FencedWrite(v) =>
      if Accepts(s, v) then s.(highest := s.highest[s.attempts[v].counter := s.attempts[v].token.value]) else s
  }

  /** One step; a step that is not possible in s only passes the time of the step counter. */
  function Apply(s: State, e: Step): State {
    Effect(s, e).(steps := s.steps + 1)
  }

  function Run(s: State, es: seq<Step>): State
    decreases |es|
  {
    if es == [] then s else Run(Apply(s, es[0]), es[1..])
  }

  // ---------------------------------------------------------------- the invariant

  /** A lease belongs to an attempt on that very key whose release script has not run. */
  predicate LeaseOk(s: State, k: string)
    requires k in s.store.db
  {
    s.store.db[k].Lease? ==>
      var v := s.store.db[k].value;
      v in s.attempts && s.attempts[v].key == k && !s.attempts[v].unlocked
  }

  /** The owner of a key is the last to have begun on it. */
  ghost predicate OwnerIsLast(s: State) {
    forall v, w :: v in s.attempts && w in s.attempts && OwnsKey(s, v) && s.attempts[w].key == s.attempts[v].key
      ==> s.attempts[w].began <= s.attempts[v].began
  }

  ghost predicate BeganDiffer(s: State) {
    && (forall v :: v in s.attempts ==> IsHolderValue(v) && s.attempts[v].began < s.steps)
    && (forall v, w :: v in s.attempts && w in s.attempts && v != w ==> s.attempts[v].began != s.attempts[w].began)
  }

  predicate Tokened(a: Attempt) {
    a.token.Some? && a.token.value != 0
  }

  /** A token never exceeds the counter it came from. */
  predicate TokenOk(s: State, a: Attempt) {
    Tokened(a) ==>
      && a.incrAt < s.steps
      && a.counter in s.store.db && s.store.db[a.counter].Counter? && 0 < a.token.value <= s.store.db[a.counter].n
  }

  /** Tokens of one counter are ordered as their INCR calls. */
  predicate Ordered(a: Attempt, b: Attempt) {
    a.counter == b.counter && Tokened(a) && Tokened(b) ==>
      && a.incrAt != b.incrAt
      && (a.token.value < b.token.value <==> a.incrAt < b.incrAt)
      && a.token.value != b.token.value
  }

  /** An INCR that ran while its key was owned came before any INCR of a later owner. */
  predicate OnTimeFirst(a: Attempt, b: Attempt) {
    a.key == b.key && a.began < b.began && Tokened(a) && a.onTime && Tokened(b) ==> a.incrAt < b.incrAt
  }

  ghost predicate LeasesOk(s: State) {
    forall k :: k in s.store.db ==> LeaseOk(s, k)
  }

  ghost predicate TokensOk(s: State) {
    forall v :: v in s.attempts ==> TokenOk(s, s.attempts[v])
  }

  ghost predicate PairsOk(s: State) {
    forall v, w :: v in s.attempts && w in s.attempts && v != w ==>
      Ordered(s.attempts[v], s.attempts[w]) && OnTimeFirst(s.attempts[v], s.attempts[w])
  }

  ghost predicate Inv(s: State) {
    CountersFit(s.store) && LeasesOk(s) && OwnerIsLast(s) && BeganDiffer(s) && TokensOk(s) && PairsOk(s)
  }

  // ---------------------------------------------------------------- every step keeps the invariant

  /** Nothing but the store changes, and there only leases go or change their deadline. */
  predicate OnlyLoses(st: Store, st': Store) {
    && (forall k :: k in st'.db ==> k in st.db)
    && (forall k :: k in st'.db ==>
          (st.db[k].Counter? ==> st'.db[k] == st.db[k])
          && (st.db[k].Lease? ==> st'.db[k].Lease? && st'.db[k].value == st.db[k].value))
    && (forall k :: k in st.db && st.db[k].Counter? ==> k in st'.db)
  }

  lemma LosingKeeps(s: State, s': State)
    requires Inv(s) && OnlyLoses(s.store, s'.store) && s'.attempts == s.attempts && s'.steps == s.steps + 1
    ensures Inv(s')
  {
    hide Ordered, OnTimeFirst, IsHolderValue;
    assert OwnerIsLast(s') by {
      assert forall v :: v in s'.attempts && OwnsKey(s', v) ==> OwnsKey(s, v);
    }
    hide OwnerIsLast, OwnsKey;
    assert LeasesOk(s') by {
      assert forall k :: k in s'.store.db ==> LeaseOk(s, k) && LeaseOk(s', k);
    }
    hide LeasesOk, LeaseOk;
    assert forall v :: v in s'.attempts ==> TokenOk(s, s.attempts[v]) && TokenOk(s', s.attempts[v]);
  }

  lemma StepsPass(s: State)
    requires Inv(s)
    ensures Inv(s.(steps := s.steps + 1))
  {
    LosingKeeps(s, s.(steps := s.steps + 1));
  }

  /** The same acquire: only what happened to it since may differ. */
  predicate SameAcquire(a: Attempt, b: Attempt) {
    a.key == b.key && a.counter == b.counter && a.began == b.began
  }

  lemma PutKeepsLeases(s: State, v: string, b: Attempt)
    requires LeasesOk(s) && v in s.attempts && SameAcquire(s.attempts[v], b) && (b.unlocked ==> !OwnsKey(s, v))
    ensures LeasesOk(Put(s, v, b))
  {
    var s' := Put(s, v, b);
    forall k | k in s'.store.db ensures LeaseOk(s', k) {
      assert LeaseOk(s, k);
    }
  }

  lemma PutKeepsOwners(s: State, v: string, b: Attempt)
    requires OwnerIsLast(s) && BeganDiffer(s) && v in s.attempts && SameAcquire(s.attempts[v], b)
    ensures OwnerIsLast(Put(s, v, b)) && BeganDiffer(Put(s, v, b))
  {
    hide Owns, IsHolderValue;
    var s' := Put(s, v, b);
    assert forall w :: w in s'.attempts ==> SameAcquire(s.attempts[w], s'.attempts[w]) && (OwnsKey(s', w) <==> OwnsKey(s, w));
  }

  lemma PutKeepsPairs(s: State, v: string, b: Attempt)
    requires TokensOk(s) && PairsOk(s) && v in s.attempts && TokenOk(s, b) && FitsIn(s, v, b)
    ensures TokensOk(Put(s, v, b)) && PairsOk(Put(s, v, b))
  {
    hide Ordered, OnTimeFirst;
    var s' := Put(s, v, b);
    forall w | w in s'.attempts ensures TokenOk(s', s'.attempts[w]) {
      assert TokenOk(s, s.attempts[w]);
    }
    hide TokenOk;
  }

  /** b could stand for v among the other attempts. */
  ghost predicate FitsIn(s: State, v: string, b: Attempt) {
    forall w :: w in s.attempts && w != v ==>
      && Ordered(s.attempts[w], b) && Ordered(b, s.attempts[w])
      && OnTimeFirst(s.attempts[w], b) && OnTimeFirst(b, s.attempts[w])
  }

  lemma PutKeeps(s: State, v: string, b: Attempt)
    requires Inv(s) && v in s.attempts && SameAcquire(s.attempts[v], b) && (b.unlocked ==> !OwnsKey(s, v))
    requires TokenOk(s, b) && FitsIn(s, v, b)
    ensures Inv(Put(s, v, b))
  {
    hide LeasesOk, OwnerIsLast, BeganDiffer, TokensOk, PairsOk, FitsIn, TokenOk, CountersFit, OwnsKey;
    PutKeepsLeases(s, v, b);
    PutKeepsOwners(s, v, b);
    PutKeepsPairs(s, v, b);
  }

  /** A change of flags; unlocked may be set once the key is lost. */
  lemma FlagsKeep(s: State, v: string, b: Attempt)
    requires Inv(s) && v in s.attempts
    requires b == s.attempts[v].(released := b.released, releasing := b.releasing, extending := b.extending, unlocked := b.unlocked)
    requires b.unlocked ==> s.attempts[v].unlocked || !OwnsKey(s, v)
    ensures Inv(Put(s, v, b))
  {
    var a := s.attempts[v];
    assert b.unlocked ==> !OwnsKey(s, v) by {
      if OwnsKey(s, v) { assert LeaseOk(s, a.key); }
    }
    hide OwnsKey, LeasesOk, OwnerIsLast, BeganDiffer;
    assert TokenOk(s, a) && TokenOk(s, b);
    FlagsFit(s, v, b);
    hide FitsIn, TokensOk, PairsOk, TokenOk;
    PutKeeps(s, v, b);
  }

  lemma FlagsFit(s: State, v: string, b: Attempt)
    requires PairsOk(s) && v in s.attempts
    requires b == s.attempts[v].(released := b.released, releasing := b.releasing, extending := b.extending, unlocked := b.unlocked)
    ensures FitsIn(s, v, b)
  {
    var a := s.attempts[v];
    forall w | w in s.attempts && w != v
      ensures Ordered(s.attempts[w], b) && Ordered(b, s.attempts[w]) && OnTimeFirst(s.attempts[w], b) && OnTimeFirst(b, s.attempts[w])
    {
      assert Ordered(s.attempts[w], a) && Ordered(a, s.attempts[w]) && OnTimeFirst(s.attempts[w], a) && OnTimeFirst(a, s.attempts[w]);
    }
  }

  lemma SetNxKeeps(s: State, e: Step)
    requires Inv(s) && e.SetNx?
    ensures Inv(Apply(s, e))
  {
    hide IsHolderValue, KeyFor, FenceKey, SetMillis, Inv, SetNX;
    var key := KeyFor(e.prefix, e.name, e.slot);
    if e.value in s.attempts || !IsHolderValue(e.value) || e.link.RequestLost? || key in s.store.db {
      StepsPass(s);
    } else {
      var a := Attempt(key, FenceKey(e.prefix, e.name), e.ttl, s.steps, e.link.ReplyLost?, None, 0, false, false, false, false, 0);
      NewLeaseKeeps(s, e.value, a);
    }
  }

  /** The state after a successful SET NX. */
  function Leased(s: State, v: string, a: Attempt): State {
    Put(s.(store := SetNX(s.store, a.key, v, a.ttl), steps := s.steps + 1), v, a)
  }

  predicate NewAttempt(s: State, v: string, a: Attempt) {
    v !in s.attempts && IsHolderValue(v) && a.key !in s.store.db && a.began == s.steps && a.token.None? && !a.unlocked
  }

  lemma NewLeaseKeeps(s: State, v: string, a: Attempt)
    requires Inv(s) && NewAttempt(s, v, a)
    ensures Inv(Leased(s, v, a))
  {
    NewLeaseIsLast(s, v, a);
    NewLeaseFits(s, v, a);
    hide OwnerIsLast, BeganDiffer, TokensOk, PairsOk, SetMillis;
    var s' := Leased(s, v, a);
    forall k | k in s'.store.db ensures LeaseOk(s', k) {
      assert k in s.store.db ==> LeaseOk(s, k);
    }
    assert CountersFit(s'.store);
  }

  lemma NewLeaseIsLast(s: State, v: string, a: Attempt)
    requires OwnerIsLast(s) && BeganDiffer(s) && NewAttempt(s, v, a)
    ensures OwnerIsLast(Leased(s, v, a)) && BeganDiffer(Leased(s, v, a))
  {
    hide SetMillis, IsHolderValue;
    var s' := Leased(s, v, a);
    forall w | w in s.attempts && OwnsKey(s', w) ensures OwnsKey(s, w) && s.attempts[w].key != a.key {
    }
  }

  lemma NewLeaseFits(s: State, v: string, a: Attempt)
    requires TokensOk(s) && PairsOk(s) && NewAttempt(s, v, a)
    ensures TokensOk(Leased(s, v, a)) && PairsOk(Leased(s, v, a))
  {
    hide SetMillis, IsHolderValue;
    var s' := Leased(s, v, a);
    forall w | w in s'.attempts ensures TokenOk(s', s'.attempts[w]) {
      assert w in s.attempts ==> TokenOk(s, s.attempts[w]);
    }
    assert !Tokened(a);
    forall x, y | x in s'.attempts && y in s'.attempts && x != y
      ensures Ordered(s'.attempts[x], s'.attempts[y]) && OnTimeFirst(s'.attempts[x], s'.attempts[y])
    {
      if x in s.attempts && y in s.attempts {
        assert Ordered(s.attempts[x], s.attempts[y]) && OnTimeFirst(s.attempts[x], s.attempts[y]);
      }
    }
  }

  lemma IncrStoreKeeps(s: State, key: string)
    requires Inv(s)
    ensures Inv(s.(store := Incr(s.store, key), steps := s.steps + 1))
  {
    var s' := s.(store := Incr(s.store, key), steps := s.steps + 1);
    assert OwnerIsLast(s') by {
      assert forall v :: v in s'.attempts && OwnsKey(s', v) ==> OwnsKey(s, v);
    }
    IncrKeepsTokens(s, key);
    hide OwnerIsLast, PairsOk, TokensOk;
    forall k | k in s'.store.db ensures LeaseOk(s', k) {
      assert k in s.store.db ==> LeaseOk(s, k);
    }
  }

  lemma IncrKeepsTokens(s: State, key: string)
    requires TokensOk(s) && PairsOk(s)
    ensures var s' := s.(store := Incr(s.store, key), steps := s.steps + 1); TokensOk(s') && PairsOk(s')
  {
    hide Ordered, OnTimeFirst;
    var s' := s.(store := Incr(s.store, key), steps := s.steps + 1);
    forall v | v in s'.attempts ensures TokenOk(s', s'.attempts[v]) {
      assert TokenOk(s, s.attempts[v]);
    }
  }

  /** The token an INCR call brings home is larger than every earlier token of its counter. */
  lemma NewTokenIsLargest(s: State, v: string)
    requires Inv(s) && v in s.attempts && IncrReply(s.store, s.attempts[v].counter).Some?
    ensures forall w :: w in s.attempts && Tokened(s.attempts[w]) && s.attempts[w].counter == s.attempts[v].counter ==>
      s.attempts[w].token.value < IncrReply(s.store, s.attempts[v].counter).value && s.attempts[w].incrAt < s.steps
  {
    assert forall w :: w in s.attempts ==> TokenOk(s, s.attempts[w]);
  }

  lemma IncrKeeps(s: State, v: string, link: Link)
    requires Inv(s) && v in s.attempts && !s.attempts[v].orphan && s.attempts[v].token.None?
    ensures Inv(Apply(s, IncrCall(v, link)))
  {
    var a := s.attempts[v];
    var s1 := s.(store := if link.RequestLost? then s.store else Incr(s.store, a.counter), steps := s.steps + 1);
    var s' := Apply(s, IncrCall(v, link));
    var b := s'.attempts[v];
    assert s' == Put(s1, v, b);
    assert SameAcquire(a, b) && b.unlocked == a.unlocked;
    assert b.unlocked ==> !OwnsKey(s1, v) by {
      if OwnsKey(s, v) { assert LeaseOk(s, a.key); }
    }
    assert TokenOk(s1, b);
    IncrFits(s, v, link, b);
    hide Incr, IncrReply, OwnsKey, TokenOk, Inv;
    if link.RequestLost? { StepsPass(s); } else { IncrStoreKeeps(s, a.counter); }
    PutKeeps(s1, v, b);
  }

  lemma IncrFits(s: State, v: string, link: Link, b: Attempt)
    requires Inv(s) && v in s.attempts && !s.attempts[v].orphan && s.attempts[v].token.None?
    requires b == DoIncr(s, v, link).attempts[v]
    ensures FitsIn(s, v, b)
  {
    var a := s.attempts[v];
    if Tokened(b) {
      NewTokenIsLargest(s, v);
    }
    hide LeasesOk, CountersFit, TokensOk, PairsOk;
    forall w | w in s.attempts && w != v
      ensures Ordered(s.attempts[w], b) && Ordered(b, s.attempts[w]) && OnTimeFirst(s.attempts[w], b) && OnTimeFirst(b, s.attempts[w])
    {
      if b.onTime { assert OwnsKey(s, v); }
    }
  }

  lemma ScriptsOnlyLose(st: Store, key: string, v: string, ms: nat)
    requires CountersFit(st) && IsHolderValue(v)
    ensures OnlyLoses(st, ReleaseScript(st, key, v)) && OnlyLoses(st, ExtendScript(st, key, v, ms))
    ensures !Owns(ReleaseScript(st, key, v), key, v)
  {
    hide DecInt, IsHolderValue;
    MatchesMeansOwns(st, key, v);
  }

  lemma ValueIsHolder(s: State, v: string)
    requires Inv(s) && v in s.attempts
    ensures IsHolderValue(v) && CountersFit(s.store)
  {
  }

  lemma ReleaseRunKeeps(s: State, v: string, link: Link)
    requires Inv(s) && v in s.attempts && s.attempts[v].releasing
    ensures Inv(Apply(s, ReleaseRun(v, link)))
  {
    hide ReleaseScript, OnlyLoses, Inv, CountersFit, IsHolderValue;
    var a := s.attempts[v];
    ValueIsHolder(s, v);
    if link.RequestLost? {
      StepsPass(s);
      FlagsKeep(s.(steps := s.steps + 1), v, a.(releasing := false));
    } else {
      ScriptsOnlyLose(s.store, a.key, v, 0);
      var s1 := s.(store := ReleaseScript(s.store, a.key, v), steps := s.steps + 1);
      LosingKeeps(s, s1);
      FlagsKeep(s1, v, a.(releasing := false, unlocked := true));
    }
  }

  lemma ExtendRunKeeps(s: State, v: string, link: Link)
    requires Inv(s) && v in s.attempts && s.attempts[v].extending > 0
    ensures Inv(Apply(s, ExtendRun(v, link)))
  {
    hide ExtendScript, OnlyLoses, Inv, CountersFit, IsHolderValue, OwnsKey, ExtendMillis;
    var a := s.attempts[v];
    ValueIsHolder(s, v);
    ScriptsOnlyLose(s.store, a.key, v, ExtendMillis(a.ttl));
    StepsPass(s);
    var s1 := s.(steps := s.steps + 1);
    if !link.RequestLost? {
      s1 := s1.(store := ExtendScript(s.store, a.key, v, ExtendMillis(a.ttl)));
      LosingKeeps(s, s1);
    }
    FlagsKeep(s1, v, a.(extending := a.extending - 1));
  }

  lemma ResentKeeps(s: State, v: string, request: Request)
    requires Inv(s) && v in s.attempts
    ensures Inv(Apply(s, Resent(v, request)))
  {
    hide ReleaseScript, ExtendScript, Incr, OnlyLoses, Inv, CountersFit, IsHolderValue, ExtendMillis;
    var a := s.attempts[v];
    StepsPass(s);
    ValueIsHolder(s, v);
    ScriptsOnlyLose(s.store, a.key, v, ExtendMillis(a.ttl));
    var s1 := s.(steps := s.steps + 1);
    match request
    case IncrRequest => IncrStoreKeeps(s, a.counter);
    case ReleaseRequest =>
      var s2 := s1.(store := ReleaseScript(s.store, a.key, v));
      LosingKeeps(s, s2);
      FlagsKeep(s2, v, a.(unlocked := true));
    case ExtendRequest => LosingKeeps(s, s1.(store := ExtendScript(s.store, a.key, v, ExtendMillis(a.ttl))));
  }

  lemma StepKeeps(s: State, e: Step)
    requires Inv(s)
    ensures Inv(Apply(s, e))
  {
    hide Inv, DoSetNx, DoIncr, DoReleaseRun, DoExtendRun, DoResent, Accepts, Tick;
    StepsPass(s);
    var s1 := s.(steps := s.steps + 1);
    match e
    case SetNx(_, _, _, _, _, _) => SetNxKeeps(s, e);
    case Clock(ms) => TickOnlyLoses(s.store, ms); LosingKeeps(s, Apply(s, e));
    case OperatorDel(key) =>
      DelOnlyLoses(s.store, key);
      LosingKeeps(s, Apply(s, e));
    case IncrCall(v, link) => IncrCallKeeps(s, v, link);
    case ReleaseFlag(v) =>
      if v in s.attempts && CanCall(s.attempts[v]) { FlagsKeep(s1, v, s.attempts[v].(released := true, releasing := true)); }
    case ReleaseRun(v, link) => ReleaseCallKeeps(s, v, link);
    case ExtendCheck(v) =>
      if v in s.attempts && CanCall(s.attempts[v]) { FlagsKeep(s1, v, s.attempts[v].(extending := s.attempts[v].extending + 1)); }
    case ExtendRun(v, link) => ExtendCallKeeps(s, v, link);
    case Resent(v, request) => if v in s.attempts { ResentKeeps(s, v, request); }
    case FencedWrite(v) => LosingKeeps(s, Apply(s, e));
  }

  lemma TickOnlyLoses(st: Store, ms: nat)
    ensures OnlyLoses(st, Tick(st, ms))
  {
  }

  lemma DelOnlyLoses(st: Store, key: string)
    ensures OnlyLoses(st, st)
    ensures key in st.db && st.db[key].Lease? ==> OnlyLoses(st, st.(db := st.db - {key}))
  {
  }

  lemma IncrCallKeeps(s: State, v: string, link: Link)
    requires Inv(s)
    ensures Inv(Apply(s, IncrCall(v, link)))
  {
    hide Inv, Incr, IncrReply, OwnsKey;
    StepsPass(s);
    if v in s.attempts && !s.attempts[v].orphan && s.attempts[v].token.None? { IncrKeeps(s, v, link); }
  }

  lemma ReleaseCallKeeps(s: State, v: string, link: Link)
    requires Inv(s)
    ensures Inv(Apply(s, ReleaseRun(v, link)))
  {
    hide Inv, ReleaseScript;
    StepsPass(s);
    if v in s.attempts && s.attempts[v].releasing { ReleaseRunKeeps(s, v, link); }
  }

  lemma ExtendCallKeeps(s: State, v: string, link: Link)
    requires Inv(s)
    ensures Inv(Apply(s, ExtendRun(v, link)))
  {
    hide Inv, ExtendScript;
    StepsPass(s);
    if v in s.attempts && s.attempts[v].extending > 0 { ExtendRunKeeps(s, v, link); }
  }

  lemma {:induction false} RunKeeps(s: State, es: seq<Step>)
    requires Inv(s)
    ensures Inv(Run(s, es))
    decreases |es|
  {
    hide Inv, Apply;
    if es != [] {
      StepKeeps(s, es[0]);
      RunKeeps(Apply(s, es[0]), es[1..]);
    }
  }

  lemma ReachableInv(es: seq<Step>)
    ensures Inv(Run(Initial(), es))
  {
    hide Run;
    RunKeeps(Initial(), es);
  }
}
