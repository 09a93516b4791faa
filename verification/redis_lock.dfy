/** The Redis lock of cache/homework2: the three Lua scripts as they run on a store with expiry,
    and what every interleaving of any clients' scripts with time keeps. */
module RedisLock {
  import opened Wrappers

  /** An entry of the store; it is gone when `deadline`, in milliseconds, is reached. */
  datatype Entry = Entry(value: string, deadline: int)

  datatype Store = Store(now: nat, entries: map<string, Entry>)

  /** The expiration in seconds as it is handed to Redis: a whole number, or a number with a
      fraction, which Redis does not take for an expiry. */
  datatype Seconds = Whole(n: int) | Fraction

  /** `expiration.Seconds()`, of a duration in nanoseconds. */
  function ToSeconds(expiration: int): Seconds
  {
    if expiration % 1_000_000_000 == 0 then Whole(expiration / 1_000_000_000) else Fraction
  }

  /** What one call of `Lock` uses in all its scripts. Every call draws a fresh uuid, so the value
      determines the call. */
  datatype Session = Session(key: string, expiration: int) {
    function Ttl(): Seconds
    {
      ToSeconds(expiration)
    }
  }

  datatype Reply = Str(s: string) | Int(n: int) | ScriptError

  // ---------------------------------------------------------------- scripts

  function Get(st: Store, key: string): Option<string>
  {
    if key in st.entries && st.now < st.entries[key].deadline then Some(st.entries[key].value) else None
  }

  function Delete(st: Store, key: string): Store
  {
    st.(entries := st.entries - {key})
  }

  /** `set key value PX ttl`: the number is taken for milliseconds. */
  function SetPx(st: Store, key: string, value: string, ttl: Seconds): (Store, Reply)
  {
    if ttl.Whole? && ttl.n > 0 then (st.(entries := st.entries[key := Entry(value, st.now + ttl.n)]), Str("OK"))
    else (st, ScriptError)
  }

  /** `expire key ttl` on a key that is there: the number is taken for seconds, and a number that
      is not positive deletes the key. */
  function Expire(st: Store, key: string, ttl: Seconds): (Store, Reply)
    requires Get(st, key).Some?
  {
    if !ttl.Whole? then (st, ScriptError)
    else if ttl.n <= 0 then (Delete(st, key), Int(1))
    else (st.(entries := st.entries[key := st.entries[key].(deadline := st.now + 1000 * ttl.n)]), Int(1))
  }

  function LockScript(st: Store, key: string, value: string, ttl: Seconds): (Store, Reply)
  {
    match Get(st, key)
    case None => SetPx(st, key, value, ttl)
    case Some(v) =>
      if v != value then (st, Str(""))
      else
        var (u, r) := Expire(st, key, ttl);
        if r == ScriptError then (st, ScriptError) else (u, Str("OK"))
  }

  function RefreshScript(st: Store, key: string, value: string, ttl: Seconds): (Store, Reply)
  {
    if Get(st, key) == Some(value) then Expire(st, key, ttl) else (st, Int(0))
  }

  function UnlockScript(st: Store, key: string, value: string): (Store, Reply)
  {
    if Get(st, key) == Some(value) then (Delete(st, key), Int(1)) else (st, Int(0))
  }

  /** A lock script that finds the key free succeeds iff the expiration is a positive whole number of
      seconds, and then that number is the time to live in milliseconds. */
  lemma FreshLockExactly(st: Store, key: string, value: string, expiration: int)
    requires Get(st, key) == None
    ensures var (u, r) := LockScript(st, key, value, ToSeconds(expiration));
      && (r == Str("OK") <==> expiration > 0 && expiration % 1_000_000_000 == 0)
      && (r == Str("OK") ==> key in u.entries && u.entries[key].value == value)
      && (r == Str("OK") ==> 1_000_000_000 * (u.entries[key].deadline - st.now) == expiration)
  {
  }

  /** A refresh that finds the caller's value sets a time to live of the whole expiration, if that is
      a whole number of seconds. */
  lemma RefreshExactly(st: Store, key: string, value: string, expiration: int)
    requires Get(st, key) == Some(value)
    ensures var (u, r) := RefreshScript(st, key, value, ToSeconds(expiration));
      && (r == Int(1) <==> expiration % 1_000_000_000 == 0)
      && (r == Int(1) && expiration > 0 ==> key in u.entries && u.entries[key].value == value)
      && (r == Int(1) && expiration > 0 ==> 1_000_000 * (u.entries[key].deadline - st.now) == expiration)
  {
  }

  // ---------------------------------------------------------------- runs

  /** Something happens: time goes by, or a script of some call of `Lock` is executed. When it was
      sent, and whether its reply arrives, is left open. */
  datatype Step = Tick(d: nat) | RunLock(v: string) | RunRefresh(v: string) | RunUnlock(v: string)

  function Execute(st: Store, step: Step, who: string -> Session): (Store, Reply)
  {
    match step
    case Tick(d) => (st.(now := st.now + d), Int(0))
    case RunLock(v) => LockScript(st, who(v).key, v, who(v).Ttl())
    case RunRefresh(v) => RefreshScript(st, who(v).key, v, who(v).Ttl())
    case RunUnlock(v) => UnlockScript(st, who(v).key, v)
  }

  /** The store after the first `n` steps from `st` on. */
  function RunFrom(st: Store, steps: seq<Step>, who: string -> Session, n: nat): Store
    requires n <= |steps|
  {
    if n == 0 then st else Execute(RunFrom(st, steps, who, n - 1), steps[n - 1], who).0
  }

  /** The store after the first `n` steps of a run, from an empty store. */
  function After(steps: seq<Step>, who: string -> Session, n: nat): Store
    requires n <= |steps|
  {
    RunFrom(Store(0, map[]), steps, who, n)
  }

  function ReplyTo(steps: seq<Step>, who: string -> Session, i: nat): Reply
    requires i < |steps|
  {
    Execute(After(steps, who, i), steps[i], who).1
  }

  // ---------------------------------------------------------------- leases, from the replies

  /** A lease that a successful script granted to a value: when, and whether by setting the key
      anew or by extending it. */
  datatype Lease = Lease(time: nat, anew: bool)

  /** What a step does to the lease of a value. A lock or refresh of its own that succeeds grants
      one, an unlock that succeeds ends it. Whether a lock set the key anew is what its script
      found in the store. */
  function NextLease(before: Option<Lease>, st: Store, step: Step, who: string -> Session, v: string): Option<Lease>
  {
    var reply := Execute(st, step, who).1;
    match step
    case RunLock(u) =>
      if u == v && reply == Str("OK") then Some(Lease(st.now, Get(st, who(v).key) == None)) else before
    case RunRefresh(u) => if u == v && reply == Int(1) then Some(Lease(st.now, false)) else before
    case RunUnlock(u) => if u == v && reply == Int(1) then None else before
    case Tick(_) => before
  }

  /** The lease that the replies to a value's own scripts add up to after `n` steps. */
  function LeaseOf(steps: seq<Step>, who: string -> Session, n: nat, v: string): Option<Lease>
    requires n <= |steps|
  {
    if n == 0 then None else
    NextLease(LeaseOf(steps, who, n - 1, v), After(steps, who, n - 1), steps[n - 1], who, v)
  }

  /** When a lease ends: the branch that sets the key counts the expiration in milliseconds, the
      branches that extend it in seconds. */
  function EndOf(l: Lease, ttl: Seconds): int
    requires ttl.Whole?
  {
    l.time + (if l.anew then ttl.n else 1000 * ttl.n)
  }

  function Deadline(steps: seq<Step>, who: string -> Session, n: nat, v: string): int
    requires n <= |steps|
  {
    var l := LeaseOf(steps, who, n, v);
    if l.Some? && who(v).Ttl().Whole? then EndOf(l.value, who(v).Ttl()) else 0
  }

  predicate Unexpired(l: Option<Lease>, now: nat, ttl: Seconds)
  {
    l.Some? && ttl.Whole? && now < EndOf(l.value, ttl)
  }

  /** The value holds a live lease after `n` steps. */
  predicate Live(steps: seq<Step>, who: string -> Session, n: nat, v: string)
    requires n <= |steps|
  {
    Unexpired(LeaseOf(steps, who, n, v), After(steps, who, n).now, who(v).Ttl())
  }

  // ---------------------------------------------------------------- mutual exclusion

  /** What every step keeps: an entry belongs to the call that its value names. */
  ghost predicate Owned(st: Store, who: string -> Session)
  {
    forall k :: k in st.entries ==> EntryOwned(k, st.entries[k].value, who)
  }

  predicate EntryOwned(k: string, v: string, who: string -> Session)
  {
    who(v).key == k && who(v).Ttl().Whole? && who(v).Ttl().n > 0
  }

  lemma ExecuteKeepsOwned(st: Store, step: Step, who: string -> Session)
    requires Owned(st, who)
    ensures Owned(Execute(st, step, who).0, who)
  {
    match step
    case Tick(_) =>
    case RunLock(v) =>
    case RunRefresh(v) =>
    case RunUnlock(v) =>
  }

  lemma {:induction false} EntriesAreOwned(steps: seq<Step>, who: string -> Session, n: nat)
    requires n <= |steps|
    ensures Owned(After(steps, who, n), who)
  {
    hide Owned, Execute;
    if n > 0 {
      EntriesAreOwned(steps, who, n - 1);
      ExecuteKeepsOwned(After(steps, who, n - 1), steps[n - 1], who);
    } else {
      NoEntries(who);
    }
  }

  lemma NoEntries(who: string -> Session)
    ensures Owned(Store(0, map[]), who)
  {
  }

  /** A lease, and what the store has for its value: it is unexpired iff the store holds the
      value, and then both end at the same time. */
  ghost predicate Agree(l: Option<Lease>, st: Store, who: string -> Session, v: string)
  {
    && (Unexpired(l, st.now, who(v).Ttl()) <==> Get(st, who(v).key) == Some(v))
    && (Unexpired(l, st.now, who(v).Ttl()) ==> st.entries[who(v).key].deadline == EndOf(l.value, who(v).Ttl()))
  }

  lemma OwnScriptKeepsAgree(l: Option<Lease>, st: Store, step: Step, who: string -> Session, v: string)
    requires Owned(st, who) && Agree(l, st, who, v)
    requires step == RunLock(v) || step == RunRefresh(v) || step == RunUnlock(v)
    ensures Agree(NextLease(l, st, step, who, v), Execute(st, step, who).0, who, v)
  {
    hide Owned;
    if Get(st, who(v).key) == Some(v) {
      assert EntryOwned(who(v).key, v, who) by {
        OwnedEntry(st, who, who(v).key);
      }
    }
  }

  lemma OwnedEntry(st: Store, who: string -> Session, k: string)
    requires Owned(st, who) && k in st.entries
    ensures EntryOwned(k, st.entries[k].value, who)
  {
  }

  /** A script of another value leaves the key alone, unless the key is free. */
  lemma OtherScriptKeepsAgree(l: Option<Lease>, st: Store, step: Step, who: string -> Session, v: string)
    requires Agree(l, st, who, v)
    requires step != RunLock(v) && step != RunRefresh(v) && step != RunUnlock(v)
    ensures Agree(NextLease(l, st, step, who, v), Execute(st, step, who).0, who, v)
  {
    match step
    case Tick(_) =>
    case RunLock(u) =>
    case RunRefresh(u) =>
    case RunUnlock(u) =>
  }

  /** After every run, the lease that a value has by its replies is the one the store has. */
  lemma {:induction false} LeaseIsInStore(steps: seq<Step>, who: string -> Session, n: nat, v: string)
    requires n <= |steps|
    ensures Agree(LeaseOf(steps, who, n, v), After(steps, who, n), who, v)
  {
    hide Owned, Execute, NextLease, Agree;
    if n == 0 {
      NoLease(who, v);
    } else {
      var l, st, step := LeaseOf(steps, who, n - 1, v), After(steps, who, n - 1), steps[n - 1];
      LeaseIsInStore(steps, who, n - 1, v);
      EntriesAreOwned(steps, who, n - 1);
      if step == RunLock(v) || step == RunRefresh(v) || step == RunUnlock(v) {
        OwnScriptKeepsAgree(l, st, step, who, v);
      } else {
        OtherScriptKeepsAgree(l, st, step, who, v);
      }
    }
  }

  lemma NoLease(who: string -> Session, v: string)
    ensures Agree(None, Store(0, map[]), who, v)
  {
  }

  /** Mutual exclusion. After any interleaving of any calls' scripts with time, executed late or
      not and with replies lost or not, at most one value holds a live lease on a key. */
  lemma MutualExclusion(steps: seq<Step>, who: string -> Session, n: nat, v: string, u: string)
    requires n <= |steps| && who(v).key == who(u).key
    requires Live(steps, who, n, v) && Live(steps, who, n, u)
    ensures v == u
  {
    LeaseIsInStore(steps, who, n, v);
    LeaseIsInStore(steps, who, n, u);
  }

  // ---------------------------------------------------------------- ownership

  /** A lock succeeds exactly when the key is free and its expiration is one that Redis takes, or
      when the caller holds a live lease already; a refresh or an unlock, exactly when the caller
      holds a live lease. A script that does not succeed leaves the store alone. */
  lemma SuccessExactly(steps: seq<Step>, who: string -> Session, i: nat, v: string)
    requires i < |steps|
    ensures var st := After(steps, who, i);
      var free := Get(st, who(v).key) == None;
      var held := Live(steps, who, i, v);
      && (steps[i] == RunLock(v) ==>
            && (ReplyTo(steps, who, i) == Str("OK") <==> (free && who(v).Ttl().Whole? && who(v).Ttl().n > 0) || held)
            && (ReplyTo(steps, who, i) != Str("OK") ==> After(steps, who, i + 1) == st))
      && (steps[i] == RunRefresh(v) || steps[i] == RunUnlock(v) ==>
            && (ReplyTo(steps, who, i) == Int(1) <==> held)
            && (ReplyTo(steps, who, i) != Int(1) ==> After(steps, who, i + 1) == st))
  {
    hide Owned, LeaseOf;
    LeaseIsInStore(steps, who, i, v);
    EntriesAreOwned(steps, who, i);
    if who(v).key in After(steps, who, i).entries {
      OwnedEntry(After(steps, who, i), who, who(v).key);
    }
  }

  lemma OneStepDeadline(st: Store, step: Step, who: string -> Session, k: string)
    requires Owned(st, who) && Get(st, k).Some? && Get(Execute(st, step, who).0, k) == Get(st, k)
    requires st.entries[k].deadline <= st.now + 1000 * who(st.entries[k].value).Ttl().n
    ensures Execute(st, step, who).0.entries[k].deadline >= st.entries[k].deadline
  {
    hide Owned;
    OwnedEntry(st, who, k);
  }

  lemma {:induction false} LeaseInPast(steps: seq<Step>, who: string -> Session, n: nat, v: string)
    requires n <= |steps|
    ensures LeaseOf(steps, who, n, v).Some? ==> LeaseOf(steps, who, n, v).value.time <= After(steps, who, n).now
    ensures n > 0 ==> After(steps, who, n - 1).now <= After(steps, who, n).now
  {
    hide LockScript, RefreshScript, UnlockScript;
    if n > 0 {
      LeaseInPast(steps, who, n - 1, v);
      ClockGoesOn(After(steps, who, n - 1), steps[n - 1], who);
    }
  }

  lemma ClockGoesOn(st: Store, step: Step, who: string -> Session)
    ensures Execute(st, step, who).0.now >= st.now
    ensures !step.Tick? ==> Execute(st, step, who).0.now == st.now
  {
  }

  /** While one value stays the owner of a key, its deadline never moves backwards. */
  lemma {:induction false} DeadlineMovesForward(steps: seq<Step>, who: string -> Session, i: nat, j: nat, v: string)
    requires i <= j <= |steps|
    requires forall m :: i <= m <= j ==> Live(steps, who, m, v)
    ensures Deadline(steps, who, i, v) <= Deadline(steps, who, j, v)
    decreases j
  {
    hide Owned, Execute, LeaseOf, After;
    if i < j {
      DeadlineMovesForward(steps, who, i, j - 1, v);
      assert Live(steps, who, j - 1, v) && Live(steps, who, j, v);
      OwnerStep(steps, who, j - 1, v);
    }
  }

  lemma OwnerStep(steps: seq<Step>, who: string -> Session, i: nat, v: string)
    requires i < |steps| && Live(steps, who, i, v) && Live(steps, who, i + 1, v)
    ensures Deadline(steps, who, i, v) <= Deadline(steps, who, i + 1, v)
  {
    hide Owned, Execute, LeaseOf;
    LeaseIsInStore(steps, who, i, v);
    LeaseIsInStore(steps, who, i + 1, v);
    EntriesAreOwned(steps, who, i);
    LeaseInPast(steps, who, i, v);
    OwnedEntry(After(steps, who, i), who, who(v).key);
    OneStepDeadline(After(steps, who, i), steps[i], who, who(v).key);
  }

  /** Nobody else's script, and no script of its own but unlock, takes a live lease away. */
  lemma LeaseStays(steps: seq<Step>, who: string -> Session, i: nat, v: string)
    requires i < |steps| && Live(steps, who, i, v) && steps[i] != RunUnlock(v)
    requires After(steps, who, i + 1).now < Deadline(steps, who, i, v)
    ensures Live(steps, who, i + 1, v)
  {
    hide Owned, LeaseOf;
    LeaseIsInStore(steps, who, i, v);
    LeaseIsInStore(steps, who, i + 1, v);
    EntriesAreOwned(steps, who, i);
    OwnedEntry(After(steps, who, i), who, who(v).key);
  }

  lemma {:induction false} ClockForward(steps: seq<Step>, who: string -> Session, i: nat, j: nat)
    requires i <= j <= |steps|
    ensures After(steps, who, i).now <= After(steps, who, j).now
    decreases j
  {
    hide Execute;
    if i < j {
      ClockForward(steps, who, i, j - 1);
      ClockGoesOn(After(steps, who, j - 1), steps[j - 1], who);
    }
  }

  /** An acquire is idempotent. Once a value holds a lease, whatever scripts run and however much
      time goes by before the lease ends, short of its own unlock, it still holds one; so if the
      reply to the lock was lost and the lock is tried again, it succeeds. */
  lemma {:induction false} RetrySucceeds(steps: seq<Step>, who: string -> Session, i: nat, j: nat, v: string)
    requires i <= j <= |steps| && Live(steps, who, i, v)
    requires forall m :: i <= m < j ==> steps[m] != RunUnlock(v)
    requires After(steps, who, j).now < Deadline(steps, who, i, v)
    ensures Live(steps, who, j, v)
    ensures Deadline(steps, who, j, v) >= Deadline(steps, who, i, v)
    ensures j < |steps| && steps[j] == RunLock(v) ==> ReplyTo(steps, who, j) == Str("OK")
    decreases j
  {
    hide Owned, Execute, LeaseOf, After, ReplyTo;
    if i < j {
      ClockForward(steps, who, j - 1, j);
      RetrySucceeds(steps, who, i, j - 1, v);
      LeaseStays(steps, who, j - 1, v);
      OwnerStep(steps, who, j - 1, v);
    }
    if j < |steps| {
      SuccessExactly(steps, who, j, v);
    }
  }

  // ---------------------------------------------------------------- the expiration asked for

  /** The caller asked for a lease of this many seconds, and they have not gone by. */
  predicate Promised(l: Option<Lease>, now: nat, ttl: Seconds)
  {
    l.Some? && ttl.Whole? && now < l.value.time + 1000 * ttl.n
  }

  /** A caller's lease has ended although the expiration it asked for has not gone by, iff the
      script that granted it had set the key anew and the milliseconds have gone by. */
  lemma PromiseBrokenExactly(steps: seq<Step>, who: string -> Session, n: nat, v: string)
    requires n <= |steps| && who(v).Ttl().Whole?
    ensures var l, now := LeaseOf(steps, who, n, v), After(steps, who, n).now;
      (Promised(l, now, who(v).Ttl()) && Get(After(steps, who, n), who(v).key) != Some(v)) <==>
      (l.Some? && l.value.anew && l.value.time + who(v).Ttl().n <= now < l.value.time + 1000 * who(v).Ttl().n)
  {
    hide LeaseOf, After;
    LeaseIsInStore(steps, who, n, v);
  }

  /** So two callers can have their locks at once: both asked for ten seconds, and the second
      one gets the lock ten milliseconds after the first. */
  lemma TwoCallersAtOnce(who: string -> Session)
    requires who("a") == who("b") == Session("k", 10_000_000_000)
    ensures var steps := [RunLock("a"), Tick(10), RunLock("b")];
      && ReplyTo(steps, who, 0) == Str("OK") && ReplyTo(steps, who, 2) == Str("OK")
      && Promised(LeaseOf(steps, who, 3, "a"), After(steps, who, 3).now, who("a").Ttl())
      && Promised(LeaseOf(steps, who, 3, "b"), After(steps, who, 3).now, who("b").Ttl())
  {
    var steps := [RunLock("a"), Tick(10), RunLock("b")];
    assert After(steps, who, 1) == Store(0, map["k" := Entry("a", 10)]);
    assert LeaseOf(steps, who, 1, "a") == Some(Lease(0, true));
    assert After(steps, who, 2) == Store(10, map["k" := Entry("a", 10)]);
    assert LeaseOf(steps, who, 2, "a") == Some(Lease(0, true));
    assert After(steps, who, 3) == Store(10, map["k" := Entry("b", 20)]);
  }

  // ---------------------------------------------------------------- the store as it runs

  class Redis {
    var now: nat
    var entries: map<string, Entry>

    ghost function Value(): Store
      reads this
    {
      Store(now, entries)
    }

    constructor ()
      ensures Value() == Store(0, map[])
    {
      now := 0;
      entries := map[];
    }

    /** The Redis command `get`; an entry whose deadline has been reached is gone. */
    method GetValue(key: string) returns (r: Option<string>)
      ensures r == Get(Value(), key)
    {
      if key in entries && now < entries[key].deadline {
        return Some(entries[key].value);
      }
      return None;
    }

    method SetMillis(key: string, value: string, ttl: Seconds) returns (r: Reply)
      modifies this`entries
      ensures (Value(), r) == SetPx(old(Value()), key, value, ttl)
    {
      if ttl.Whole? && ttl.n > 0 {
        entries := entries[key := Entry(value, now + ttl.n)];
        return Str("OK");
      }
      return ScriptError;
    }

    method ExpireSeconds(key: string, ttl: Seconds) returns (r: Reply)
      requires Get(Value(), key).Some?
      modifies this`entries
      ensures (Value(), r) == Expire(old(Value()), key, ttl)
    {
      if !ttl.Whole? {
        return ScriptError;
      }
      if ttl.n <= 0 {
        entries := entries - {key};
      } else {
        entries := entries[key := entries[key].(deadline := now + 1000 * ttl.n)];
      }
      return Int(1);
    }

    /** lock.lua */
    method EvalLock(key: string, value: string, ttl: Seconds) returns (r: Reply)
      modifies this`entries
      ensures (Value(), r) == LockScript(old(Value()), key, value, ttl)
    {
      var val := GetValue(key);
      if val == None {
        r := SetMillis(key, value, ttl);
      } else if val.value == value {
        r := ExpireSeconds(key, ttl);
        if r != ScriptError {
          r := Str("OK");
        }
      } else {
        r := Str("");
      }
    }

    /** refresh.lua */
    method EvalRefresh(key: string, value: string, ttl: Seconds) returns (r: Reply)
      modifies this`entries
      ensures (Value(), r) == RefreshScript(old(Value()), key, value, ttl)
    {
      var val := GetValue(key);
      if val == Some(value) {
        r := ExpireSeconds(key, ttl);
      } else {
        r := Int(0);
      }
    }

    /** unlock.lua */
    method EvalUnlock(key: string, value: string) returns (r: Reply)
      modifies this`entries
      ensures (Value(), r) == UnlockScript(old(Value()), key, value)
    {
      var val := GetValue(key);
      if val == Some(value) {
        entries := entries - {key};
        r := Int(1);
      } else {
        r := Int(0);
      }
    }

    /** Whatever others do while a client waits. */
    method Meanwhile(steps: seq<Step>, who: string -> Session)
      modifies this
      ensures Value() == RunFrom(old(Value()), steps, who, |steps|)
    {
      for i := 0 to |steps|
        invariant Value() == RunFrom(old(Value()), steps, who, i)
      {
        match steps[i] {
          case Tick(d) => now := now + d;
          case RunLock(v) => var _ := EvalLock(who(v).key, v, who(v).Ttl());
          case RunRefresh(v) => var _ := EvalRefresh(who(v).key, v, who(v).Ttl());
          case RunUnlock(v) => var _ := EvalUnlock(who(v).key, v);
        }
      }
    }
  }

  // ---------------------------------------------------------------- Client.Lock

  datatype Arrival = Replied | DeadlineExceeded | OtherError

  /** One try of `Client.Lock`: whether its context is done before it, what others do before it,
      whether its script is executed at all, what others do then, and what comes back. */
  datatype Try = Try(cancelled: bool, before: seq<Step>, executed: bool, after: seq<Step>, arrival: Arrival)

  datatype LockResult = Locked | Cancelled | TimedOut | FailedToPreempt

  /** The store when the script of a try is executed, if the try begins at `st`. */
  function AtScript(st: Store, t: Try, who: string -> Session): Store
  {
    RunFrom(st, t.before, who, |t.before|)
  }

  function AfterTry(st: Store, t: Try, who: string -> Session, v: string): Store
  {
    var u := AtScript(st, t, who);
    RunFrom(if t.executed then Execute(u, RunLock(v), who).0 else u, t.after, who, |t.after|)
  }

  /** The store after `n` tries. */
  function AfterTries(st: Store, tries: seq<Try>, who: string -> Session, v: string, n: nat): Store
    requires n <= |tries|
  {
    if n == 0 then st else AfterTry(AfterTries(st, tries, who, v, n - 1), tries[n - 1], who, v)
  }

  /** The script of a try that begins at `st` replies OK, and the reply reaches the caller. */
  predicate WonTry(st: Store, t: Try, who: string -> Session, v: string)
  {
    t.executed && t.arrival == Replied && Execute(AtScript(st, t, who), RunLock(v), who).1 == Str("OK")
  }

  predicate Won(st: Store, tries: seq<Try>, who: string -> Session, v: string, i: nat)
    requires i < |tries|
  {
    WonTry(AfterTries(st, tries, who, v, i), tries[i], who, v)
  }

  /** `createLock`. */
  method CreateLock(redis: Redis, v: string, t: Try, who: string -> Session) returns (won: bool)
    modifies redis
    ensures redis.Value() == AfterTry(old(redis.Value()), t, who, v)
    ensures won <==> WonTry(old(redis.Value()), t, who, v)
  {
    hide LockScript, RefreshScript, UnlockScript;
    redis.Meanwhile(t.before, who);
    won := false;
    if t.executed {
      var reply := redis.EvalLock(who(v).key, v, who(v).Ttl());
      won := t.arrival == Replied && reply == Str("OK");
    }
    redis.Meanwhile(t.after, who);
  }

  /** `Client.Lock`, with `tries` for what the retry strategy, the context, the network and the
      other clients do; `k` tries are made. It returns a lock iff the last try won. A first try
      that times out ends the call at once; a later one is just tried again. */
  method Lock(redis: Redis, v: string, tries: seq<Try>, who: string -> Session) returns (r: LockResult, ghost k: nat)
    requires |tries| > 0
    modifies redis
    ensures k <= |tries| && redis.Value() == AfterTries(old(redis.Value()), tries, who, v, k)
    ensures forall i :: 0 <= i < k && (i < k - 1 || r != Locked) ==> !Won(old(redis.Value()), tries, who, v, i)
    ensures forall i :: 0 <= i < k ==> !tries[i].cancelled
    ensures k > 1 ==> tries[0].arrival != DeadlineExceeded
    ensures r == Locked ==> k > 0 && Won(old(redis.Value()), tries, who, v, k - 1)
    ensures r == TimedOut ==> k == 1 && tries[0].arrival == DeadlineExceeded
    ensures r == Cancelled ==> k < |tries| && tries[k].cancelled
    ensures r == Cancelled && k > 0 ==> tries[0].arrival != DeadlineExceeded
    ensures r == FailedToPreempt ==> k == |tries| && tries[0].arrival != DeadlineExceeded
  {
    hide AfterTry, WonTry;
    ghost var st := redis.Value();
    k := 0;
    if tries[0].cancelled {
      return Cancelled, k;
    }
    var won := CreateLock(redis, v, tries[0], who);
    k := 1;
    if won {
      return Locked, k;
    }
    if tries[0].arrival == DeadlineExceeded {
      return TimedOut, k;
    }
    var i := 1;
    while i < |tries|
      invariant 1 <= i <= |tries| && k == i
      invariant redis.Value() == AfterTries(st, tries, who, v, i)
      invariant forall j :: 0 <= j < i ==> !tries[j].cancelled && !Won(st, tries, who, v, j)
    {
      if tries[i].cancelled {
        return Cancelled, k;
      }
      won := CreateLock(redis, v, tries[i], who);
      i := i + 1;
      k := i;
      if won {
        return Locked, k;
      }
    }
    return FailedToPreempt, k;
  }

  /** A try that won made its value the owner of the key. */
  lemma WinnerOwnsKey(st: Store, t: Try, who: string -> Session, v: string)
    requires Owned(AtScript(st, t, who), who) && WonTry(st, t, who, v)
    ensures Get(Execute(AtScript(st, t, who), RunLock(v), who).0, who(v).key) == Some(v)
  {
    hide Owned, AtScript;
    var u := AtScript(st, t, who);
    if who(v).key in u.entries {
      OwnedEntry(u, who, who(v).key);
    }
  }

  /** What happens in one try, from its beginning to its end. */
  function TrySteps(t: Try, v: string): seq<Step>
  {
    t.before + (if t.executed then [RunLock(v)] else []) + t.after
  }

  /** What happens in the first `n` tries. */
  function StepsOf(tries: seq<Try>, v: string, n: nat): seq<Step>
    requires n <= |tries|
  {
    if n == 0 then [] else StepsOf(tries, v, n - 1) + TrySteps(tries[n - 1], v)
  }

  lemma {:induction false} RunOfPrefix(st: Store, a: seq<Step>, b: seq<Step>, who: string -> Session, n: nat)
    requires n <= |a|
    ensures RunFrom(st, a + b, who, n) == RunFrom(st, a, who, n)
  {
    hide Execute;
    if n > 0 {
      RunOfPrefix(st, a, b, who, n - 1);
    }
  }

  lemma {:induction false} RunOfRest(st: Store, a: seq<Step>, b: seq<Step>, who: string -> Session, n: nat)
    requires n <= |b|
    ensures RunFrom(st, a + b, who, |a| + n) == RunFrom(RunFrom(st, a, who, |a|), b, who, n)
  {
    hide Execute;
    if n == 0 {
      RunOfPrefix(st, a, b, who, |a|);
    } else {
      RunOfRest(st, a, b, who, n - 1);
    }
  }

  lemma RunOfBoth(st: Store, a: seq<Step>, b: seq<Step>, who: string -> Session)
    ensures RunFrom(st, a + b, who, |a + b|) == RunFrom(RunFrom(st, a, who, |a|), b, who, |b|)
  {
    hide RunFrom;
    RunOfRest(st, a, b, who, |b|);
  }

  lemma RunOfOne(st: Store, step: Step, who: string -> Session)
    ensures RunFrom(st, [step], who, 1) == Execute(st, step, who).0
  {
    hide Execute;
    assert RunFrom(st, [step], who, 0) == st;
  }

  lemma TryIsRun(st: Store, t: Try, who: string -> Session, v: string)
    ensures AfterTry(st, t, who, v) == RunFrom(st, TrySteps(t, v), who, |TrySteps(t, v)|)
  {
    hide RunFrom, Execute;
    var middle: seq<Step> := if t.executed then [RunLock(v)] else [];
    RunOfBoth(st, t.before + middle, t.after, who);
    RunOfBoth(st, t.before, middle, who);
    if t.executed {
      RunOfOne(AtScript(st, t, who), RunLock(v), who);
    } else {
      NoRun(AtScript(st, t, who), who);
    }
  }

  lemma NoRun(st: Store, who: string -> Session)
    ensures RunFrom(st, [], who, 0) == st
  {
  }

  lemma {:induction false} TriesAreRun(st: Store, tries: seq<Try>, who: string -> Session, v: string, n: nat)
    requires n <= |tries|
    ensures AfterTries(st, tries, who, v, n) == RunFrom(st, StepsOf(tries, v, n), who, |StepsOf(tries, v, n)|)
  {
    hide RunFrom, AfterTry, TrySteps;
    if n == 0 {
      NoRun(st, who);
    } else {
      TriesAreRun(st, tries, who, v, n - 1);
      TryIsRun(AfterTries(st, tries, who, v, n - 1), tries[n - 1], who, v);
      RunOfBoth(st, StepsOf(tries, v, n - 1), TrySteps(tries[n - 1], v), who);
    }
  }

  /** The steps of a run that had gone through `steps` up to the winning script of a call of
      `Lock`, that script included. */
  function StepsToWin(steps: seq<Step>, tries: seq<Try>, v: string, k: nat): seq<Step>
    requires 0 < k <= |tries|
  {
    steps + StepsOf(tries, v, k - 1) + tries[k - 1].before + [RunLock(v)]
  }

  /** A call of `Lock` that begins after `steps` and returns a lock, its try number `k` being the
      one that won: right after the winning script its value holds a live lease, and no other
      value holds one on the key. All that happens until the call returns, whatever others do
      meanwhile, is one run, so the theorems about runs go on from there. */
  lemma LockedIsLive(steps: seq<Step>, tries: seq<Try>, who: string -> Session, v: string, k: nat)
    requires 0 < k <= |tries|
    requires Won(After(steps, who, |steps|), tries, who, v, k - 1)
    ensures var all, n := steps + StepsOf(tries, v, k), |StepsToWin(steps, tries, v, k)|;
      && n <= |all| && all[..n] == StepsToWin(steps, tries, v, k)
      && Live(all, who, n, v)
      && (forall u :: who(u).key == who(v).key && Live(all, who, n, u) ==> u == v)
      && After(all, who, |all|) == AfterTries(After(steps, who, |steps|), tries, who, v, k)
  {
    hide RunFrom, Execute, TrySteps, StepsOf, AfterTries, LeaseOf;
    var st, won := After(steps, who, |steps|), StepsToWin(steps, tries, v, k);
    var all, n := steps + StepsOf(tries, v, k), |won|;
    SplitAtWin(steps, tries, who, v, k);
    TriesAreRun(st, tries, who, v, k);
    RunOfBoth(Store(0, map[]), steps, StepsOf(tries, v, k), who);
    RunOfPrefix(Store(0, map[]), won, tries[k - 1].after, who, n);
    StoreAtWin(steps, tries, who, v, k);
    LeaseIsInStore(all, who, n, v);
    forall u | who(u).key == who(v).key && Live(all, who, n, u) ensures u == v {
      MutualExclusion(all, who, n, v, u);
    }
  }

  lemma SplitAtWin(steps: seq<Step>, tries: seq<Try>, who: string -> Session, v: string, k: nat)
    requires 0 < k <= |tries| && tries[k - 1].executed
    ensures steps + StepsOf(tries, v, k) == StepsToWin(steps, tries, v, k) + tries[k - 1].after
  {
    assert StepsOf(tries, v, k) == StepsOf(tries, v, k - 1) + TrySteps(tries[k - 1], v);
  }

  /** The winning script has stored the value. */
  lemma StoreAtWin(steps: seq<Step>, tries: seq<Try>, who: string -> Session, v: string, k: nat)
    requires 0 < k <= |tries|
    requires Won(After(steps, who, |steps|), tries, who, v, k - 1)
    ensures var won := StepsToWin(steps, tries, v, k); Get(After(won, who, |won|), who(v).key) == Some(v)
  {
    hide RunFrom, Execute, StepsOf, AfterTries, Owned;
    var st, t := After(steps, who, |steps|), tries[k - 1];
    var earlier := steps + StepsOf(tries, v, k - 1);
    var till := earlier + t.before;
    TriesAreRun(st, tries, who, v, k - 1);
    RunOfBoth(Store(0, map[]), steps, StepsOf(tries, v, k - 1), who);
    RunOfBoth(Store(0, map[]), earlier, t.before, who);
    RunOfBoth(Store(0, map[]), till, [RunLock(v)], who);
    RunOfOne(After(till, who, |till|), RunLock(v), who);
    EntriesAreOwned(till, who, |till|);
    WinnerOwnsKey(AfterTries(st, tries, who, v, k - 1), t, who, v);
  }

  /** A first try whose reply comes too late: the caller gets no lock and tries no more, but its
      value holds the key. */
  lemma TimeoutLeavesKeyLocked(st: Store, t: Try, who: string -> Session, v: string)
    requires Get(AtScript(st, t, who), who(v).key) == None && who(v).Ttl().Whole? && who(v).Ttl().n > 0
    requires t.executed && t.arrival == DeadlineExceeded && t.after == []
    ensures !WonTry(st, t, who, v) && Get(AfterTry(st, t, who, v), who(v).key) == Some(v)
  {
  }

  // ---------------------------------------------------------------- the lock that a client holds

  datatype Result = Ok | ErrLockNotHold | ErrOther

  class HeldLock {
    const value: string
    const session: Session
    var unlockClosed: bool  // the channel that stops the refresher

    constructor (value: string, session: Session)
      ensures this.value == value && this.session == session && !unlockClosed
    {
      this.value := value;
      this.session := session;
      unlockClosed := false;
    }

    /** `Refresh`. `executed` and `arrived` say whether the script runs and its reply comes back. */
    method Refresh(redis: Redis, executed: bool, arrived: bool) returns (r: Result)
      modifies redis
      ensures redis.Value() ==
        if executed then RefreshScript(old(redis.Value()), session.key, value, session.Ttl()).0 else old(redis.Value())
      ensures var held := Get(old(redis.Value()), session.key) == Some(value);
        && (r == Ok <==> executed && arrived && held && session.Ttl().Whole?)
        && (r == ErrLockNotHold <==> executed && arrived && !held)
    {
      if !executed {
        return ErrOther;
      }
      var reply := redis.EvalRefresh(session.key, value, session.Ttl());
      if !arrived || !reply.Int? {
        return ErrOther;
      }
      return if reply.n == 1 then Ok else ErrLockNotHold;
    }

    /** `Unlock`. The refresher is stopped in any case, and only once. */
    method Unlock(redis: Redis, executed: bool, arrived: bool) returns (r: Result)
      modifies redis, this
      ensures unlockClosed
      ensures redis.Value() ==
        if executed then UnlockScript(old(redis.Value()), session.key, value).0 else old(redis.Value())
      ensures r == Ok <==> executed && arrived && Get(old(redis.Value()), session.key) == Some(value)
      ensures r == ErrLockNotHold <==> executed && arrived && Get(old(redis.Value()), session.key) != Some(value)
    {
      if !unlockClosed {
        unlockClosed := true;
      }
      if !executed {
        return ErrOther;
      }
      var reply := redis.EvalUnlock(session.key, value);
      if !arrived {
        return ErrOther;
      }
      return if reply == Int(1) then Ok else ErrLockNotHold;
    }
  }
}
