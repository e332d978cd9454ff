// memlock: an in-process counting semaphore per name with a token counter (memlock/memlock.go). The classes run
// one call at a time; MemSteps interleaves the calls of any number of goroutines.

module MemLock {
  import opened Wrappers
  import opened Decimal

  datatype Outcome = Acquired | Locked | Cancelled

  /** WithMaxConcurrent clamps its argument. */
  function Clamp(n: int): (m: int)
    ensures m >= 1 && m >= n && (m == 1 || m == n)
  {
    if n < 1 then 1 else n
  }

  /** atomic.Uint64.Add(1). */
  function Add1(t: nat): nat {
    (t + 1) % TWO_64
  }

  class Factory {
    var state: map<string, int>
    var tokens: map<string, nat>

    /** No entry of the table is zero or negative, and every name in it has a token counter. */
    ghost predicate Valid()
      reads this
    {
      forall n :: n in state ==> state[n] > 0 && n in tokens
    }

    function Held(name: string): int
      reads this
    {
      if name in state then state[name] else 0
    }

    function Counter(name: string): nat
      reads this
    {
      if name in tokens then tokens[name] else 0
    }

    constructor ()
      ensures Valid() && state == map[] && tokens == map[]
    {
      state, tokens := map[], map[];
    }

    /** Acquire: takes a slot if fewer than n are held, and then a token from the counter of the name. */
    method Acquire(cancelled: bool, name: string, n: int) returns (r: Outcome, holder: Option<Holder>)
      requires Valid()
      modifies this
      ensures Valid()
      ensures r.Acquired? <==> holder.Some?
      ensures cancelled ==> r.Cancelled?
      ensures !cancelled ==> r == if old(Held(name)) < n || old(Held(name)) < 1 then Acquired else Locked
      ensures !r.Acquired? ==> state == old(state) && tokens == old(tokens)
      ensures r.Acquired? ==>
        && state == old(state)[name := old(Held(name)) + 1]
        && tokens == old(tokens)[name := Add1(old(Counter(name)))]
        && fresh(holder.value) && holder.value.name == name && !holder.value.released
        && holder.value.token == Add1(old(Counter(name)))
    {
      if cancelled {
        return Cancelled, None;
      }
      if name !in state {
        state := state[name := 0];
      }
      if name !in tokens {
        tokens := tokens[name := 0];
      }
      if state[name] >= Clamp(n) {
        return Locked, None;
      }
      state := state[name := state[name] + 1];
      tokens := tokens[name := Add1(tokens[name])];
      var h := new Holder(name, tokens[name]);
      return Acquired, Some(h);
    }
  }

  class Holder {
    const name: string
    const token: nat
    var released: bool

    constructor (name: string, token: nat)
      ensures this.name == name && this.token == token && !released
    {
      this.name, this.token, released := name, token, false;
    }

    /** Release: the first call gives the slot back and drops an empty entry; later calls change nothing. */
    method Release(f: Factory)
      requires f.Valid()
      modifies this, f
      ensures f.Valid() && released && f.tokens == old(f.tokens)
      ensures old(released) ==> f.state == old(f.state)
      ensures !old(released) ==>
        && f.Held(name) == (if old(f.Held(name)) > 0 then old(f.Held(name)) - 1 else 0)
        && f.state - {name} == old(f.state) - {name}
    {
      if released {
        return;
      }
      released := true;
      if name !in f.state {
        return;
      }
      ghost var before := f.state;
      var left := f.state[name] - 1;
      f.state := f.state[name := left];
      if left <= 0 {
        f.state := f.state - {name};
      }
      assert f.state - {name} == before - {name};
    }
  }
}
