/** Smooth weighted round robin (rpc/homework2/loadbalance/roundrobin/weight_balancer.go).

    `WeightPicker` is the picker as written, with 32-bit unsigned weights that wrap around.
    `Step` is the same algorithm on unbounded integers, the arithmetic its weights are meant
    to have: the theorems about shares and periods are about it, and the last section says
    exactly when the unsigned picker follows it. */
module WeightedRoundRobin {

  type uint32 = x: int | 0 <= x < 0x1_0000_0000

  datatype PickResult = ErrNoSubConnAvailable | Picked(conn: Conn)

  // ---------------------------------------------------------------- one round, as functions

  /** Reduction modulo 2^32, what every unsigned addition and subtraction ends with. */
  function U32(x: int): (r: uint32)
  {
    x % 0x1_0000_0000
  }

  function SumTo(xs: seq<int>, n: nat): int
    requires n <= |xs|
  {
    if n == 0 then 0 else SumTo(xs, n - 1) + xs[n - 1]
  }

  function Sum(xs: seq<int>): int
  {
    SumTo(xs, |xs|)
  }

  /** The first of the largest among the first `n` elements. */
  function BestTo(xs: seq<int>, n: nat): (b: nat)
    requires 0 < n <= |xs|
    ensures b < n
  {
    if n == 1 then 0 else
    var b := BestTo(xs, n - 1);
    if xs[b] < xs[n - 1] then n - 1 else b
  }

  function ArgMax(xs: seq<int>): (b: nat)
    requires |xs| > 0
    ensures b < |xs|
  {
    BestTo(xs, |xs|)
  }

  function Added(cs: seq<int>, ws: seq<int>): (r: seq<int>)
    requires |cs| == |ws|
  {
    seq(|cs|, i requires 0 <= i < |cs| => cs[i] + ws[i])
  }

  function Wrap(xs: seq<int>): (r: seq<int>)
  {
    seq(|xs|, i requires 0 <= i < |xs| => U32(xs[i]))
  }

  /** A round on integers: every weight is added, the winner pays the total. */
  function Step(cs: seq<int>, ws: seq<int>): (r: seq<int>)
    requires |cs| == |ws| > 0
    ensures |r| == |cs|
  {
    var a := Added(cs, ws);
    a[ArgMax(a) := a[ArgMax(a)] - Sum(ws)]
  }

  /** A round on 32-bit unsigned weights: every addition and the subtraction wrap, and the
      comparison sees the wrapped values. */
  function StepU32(cs: seq<int>, ws: seq<int>): (r: seq<int>)
    requires |cs| == |ws| > 0
    ensures |r| == |cs|
  {
    var a := Wrap(Added(cs, ws));
    a[ArgMax(a) := U32(a[ArgMax(a)] - U32(Sum(ws)))]
  }

  /** The winner is the first of the largest, and nothing else is. */
  lemma {:induction false} BestIsFirstLargest(xs: seq<int>, n: nat, b: nat)
    requires 0 < n <= |xs| && b < n
    ensures BestTo(xs, n) == b <==>
      && (forall i :: 0 <= i < n ==> xs[i] <= xs[b])
      && (forall i :: 0 <= i < b ==> xs[i] < xs[b])
  {
    if n > 1 {
      var c := BestTo(xs, n - 1);
      BestIsFirstLargest(xs, n - 1, c);
      if b < n - 1 {
        BestIsFirstLargest(xs, n - 1, b);
      }
    }
  }

  lemma WinnerIs(xs: seq<int>, b: nat)
    requires b < |xs|
    ensures ArgMax(xs) == b <==>
      && (forall i :: 0 <= i < |xs| ==> xs[i] <= xs[b])
      && (forall i :: 0 <= i < b ==> xs[i] < xs[b])
  {
    hide BestTo;
    BestIsFirstLargest(xs, |xs|, b);
  }

  // ---------------------------------------------------------------- the picker

  class Conn {
    const weight: uint32
    ghost const slot: nat  // its place in the picker's list, which tells it from the others
    var currentWeight: uint32
    var efficientWeight: uint32

    constructor (weight: uint32, ghost slot: nat)
      ensures this.weight == currentWeight == efficientWeight == weight && this.slot == slot
    {
      this.weight := weight;
      this.slot := slot;
      currentWeight := weight;
      efficientWeight := weight;
    }
  }

  class WeightPicker {
    const conns: seq<Conn>
    ghost var rounds: nat  // the picks made so far

    ghost predicate Apart()
    {
      forall i :: 0 <= i < |conns| ==> conns[i].slot == i
    }

    /** The connections are told apart, and their weights are those of the run so far. */
    ghost predicate Valid()
      reads this, conns
    {
      && Apart()
      && (|conns| > 0 ==> Currents() == AfterU32(Weights(), rounds))
    }

    ghost function Currents(): (r: seq<int>)
      reads conns
    {
      seq(|conns|, i requires 0 <= i < |conns| reads conns => conns[i].currentWeight)
    }

    ghost function Weights(): (r: seq<int>)
      reads conns
    {
      seq(|conns|, i requires 0 <= i < |conns| reads conns => conns[i].efficientWeight)
    }

    /** The builder of the picker. The source ranges over a map of ready connections, so the
        order of `weights` is any order. */
    constructor Build(weights: seq<uint32>)
      ensures Valid() && fresh(conns) && rounds == 0
      ensures Currents() == Weights() == weights
    {
      var cs: seq<Conn> := [];
      for k := 0 to |weights|
        invariant |cs| == k && fresh(cs)
        invariant forall i :: 0 <= i < k ==> cs[i].slot == i
        invariant forall i :: 0 <= i < k ==> cs[i].currentWeight == cs[i].efficientWeight == weights[i]
      {
        var c := new Conn(weights[k], k);
        cs := cs + [c];
      }
      conns := cs;
      rounds := 0;
    }

    /** The first `k` connections hold the weights that are compared, the others what they
        held before, `cs`. */
    ghost predicate Weighed(k: nat, cs: seq<int>, ws: seq<int>)
      reads conns
    {
      && k <= |conns| == |cs| == |ws|
      && (forall i :: 0 <= i < |conns| ==> conns[i].efficientWeight == ws[i] && conns[i].slot == i)
      && (forall i :: 0 <= i < k ==> conns[i].currentWeight == Wrap(Added(cs, ws))[i])
      && (forall i :: k <= i < |conns| ==> conns[i].currentWeight == cs[i])
    }

    /** What the two locals of `Pick` hold after `k` connections. */
    ghost predicate Tallied(k: nat, totalWeight: uint32, winner: Conn?, cs: seq<int>, ws: seq<int>)
    {
      && k <= |conns| == |cs| == |ws|
      && totalWeight == U32(SumTo(ws, k))
      && winner == if k == 0 then null else conns[BestTo(Wrap(Added(cs, ws)), k)]
    }

    lemma BeforeRound()
      requires Apart()
      ensures Weighed(0, Currents(), Weights()) && Tallied(0, 0, null, Currents(), Weights())
    {
    }

    method AddWeight(c: Conn, ghost k: nat, ghost cs: seq<int>, ghost ws: seq<int>)
      requires k < |conns| && c == conns[k] && Weighed(k, cs, ws)
      modifies c`currentWeight
      ensures Weighed(k + 1, cs, ws)
    {
      hide U32;
      c.currentWeight := U32(c.currentWeight + c.efficientWeight);
    }

    lemma Tally(k: nat, totalWeight: uint32, winner: Conn?, cs: seq<int>, ws: seq<int>)
      requires k < |conns| && Weighed(k + 1, cs, ws) && Tallied(k, totalWeight, winner, cs, ws)
      ensures var next :=
          if winner == null || winner.currentWeight < conns[k].currentWeight then conns[k] else winner;
        Tallied(k + 1, U32(totalWeight + conns[k].efficientWeight), next, cs, ws)
    {
      hide Wrap, Added;
    }

    lemma WinnerIsConn(totalWeight: uint32, winner: Conn?, cs: seq<int>, ws: seq<int>)
      requires |conns| > 0 && Tallied(|conns|, totalWeight, winner, cs, ws)
      ensures winner != null && winner in conns
    {
      hide Wrap, Added;
    }

    method ChargeWinner(winner: Conn, totalWeight: uint32, ghost cs: seq<int>, ghost ws: seq<int>)
      requires |conns| > 0
      requires Weighed(|conns|, cs, ws) && Tallied(|conns|, totalWeight, winner, cs, ws)
      modifies winner`currentWeight
      ensures winner == conns[ArgMax(Wrap(Added(cs, ws)))]
      ensures Weights() == ws && Currents() == StepU32(cs, ws)
    {
      hide SumTo, BestTo, U32;
      winner.currentWeight := U32(winner.currentWeight - totalWeight);
    }

    /** The part of `Pick` under the lock. The state after it is `StepU32` of the state before
        it and the connection returned is the one that round picks. */
    method Round() returns (winner: Conn)
      requires Apart() && |conns| > 0
      modifies conns`currentWeight
      ensures winner == conns[ArgMax(Wrap(Added(old(Currents()), Weights())))]
      ensures Weights() == old(Weights()) && Currents() == StepU32(old(Currents()), Weights())
    {
      hide *;
      ghost var cs, ws := Currents(), Weights();
      BeforeRound();
      var totalWeight: uint32 := 0;
      var maxWeightConn: Conn? := null;
      for k := 0 to |conns|
        invariant Weighed(k, cs, ws) && Tallied(k, totalWeight, maxWeightConn, cs, ws)
      {
        var c := conns[k];
        AddWeight(c, k, cs, ws);
        Tally(k, totalWeight, maxWeightConn, cs, ws);
        totalWeight := U32(totalWeight + c.efficientWeight);
        if maxWeightConn == null || maxWeightConn.currentWeight < c.currentWeight {
          maxWeightConn := c;
        }
      }
      WinnerIsConn(totalWeight, maxWeightConn, cs, ws);
      ChargeWinner(maxWeightConn, totalWeight, cs, ws);
      return maxWeightConn;
    }

    /** One call of the balancer. A run of calls goes through the states `AfterU32` and returns
        the connections that `PickAtU32` says. */
    method Pick() returns (r: PickResult)
      requires Valid()
      modifies conns`currentWeight, this`rounds
      ensures Valid() && Weights() == old(Weights())
      ensures |conns| == 0 ==> r == ErrNoSubConnAvailable
      ensures |conns| > 0 ==> rounds == old(rounds) + 1 && r == Picked(conns[PickAtU32(Weights(), old(rounds))])
    {
      if |conns| == 0 {
        return ErrNoSubConnAvailable;
      }
      hide Apart, Currents, Weights, AfterU32, StepU32, ArgMax, Wrap, Added;
      NextRound(Weights(), rounds);
      var winner := Round();
      rounds := rounds + 1;
      return Picked(winner);
    }
  }

  // ---------------------------------------------------------------- runs

  /** Weights a builder can be given. */
  predicate Weighting(ws: seq<int>)
  {
    |ws| > 0 && (forall i :: 0 <= i < |ws| ==> ws[i] >= 0) && Sum(ws) >= 1
  }

  /** The current weights after `k` picks from a freshly built picker. */
  function After(ws: seq<int>, k: nat): (r: seq<int>)
    requires |ws| > 0
    ensures |r| == |ws|
  {
    if k == 0 then ws else Step(After(ws, k - 1), ws)
  }

  /** The connection that pick number `k` (from 0) returns. */
  function PickAt(ws: seq<int>, k: nat): (r: nat)
    requires |ws| > 0
    ensures r < |ws|
  {
    ArgMax(Added(After(ws, k), ws))
  }

  /** How many of the picks numbered `lo` up to, not including, `hi` went to connection `i`. */
  function Picks(ws: seq<int>, i: nat, lo: nat, hi: nat): (n: nat)
    requires |ws| > 0 && lo <= hi
    decreases hi
  {
    if lo == hi then 0 else
    Picks(ws, i, lo, hi - 1) + (if PickAt(ws, hi - 1) == i then 1 else 0)
  }

  lemma {:induction false} SumToUpdate(xs: seq<int>, n: nat, i: nat, v: int)
    requires i < |xs| && n <= |xs|
    ensures SumTo(xs[i := v], n) == SumTo(xs, n) + (if i < n then v - xs[i] else 0)
  {
    if n > 0 {
      SumToUpdate(xs, n - 1, i, v);
    }
  }

  lemma SumUpdate(xs: seq<int>, i: nat, v: int)
    requires i < |xs|
    ensures Sum(xs[i := v]) == Sum(xs) - xs[i] + v
  {
    SumToUpdate(xs, |xs|, i, v);
  }

  lemma {:induction false} SumToAdded(cs: seq<int>, ws: seq<int>, n: nat)
    requires |cs| == |ws| && n <= |cs|
    ensures SumTo(Added(cs, ws), n) == SumTo(cs, n) + SumTo(ws, n)
  {
    if n > 0 {
      SumToAdded(cs, ws, n - 1);
    }
  }

  lemma SumAdded(cs: seq<int>, ws: seq<int>)
    requires |cs| == |ws|
    ensures Sum(Added(cs, ws)) == Sum(cs) + Sum(ws)
  {
    SumToAdded(cs, ws, |cs|);
  }

  lemma {:induction false} SumToAtLeast(xs: seq<int>, n: nat, b: int)
    requires n <= |xs| && forall i :: 0 <= i < n ==> xs[i] >= b
    ensures SumTo(xs, n) >= n * b
  {
    if n > 0 {
      SumToAtLeast(xs, n - 1, b);
    }
  }

  lemma {:induction false} SumToNotPositive(xs: seq<int>, n: nat)
    requires n <= |xs| && forall i :: 0 <= i < n ==> xs[i] <= 0
    ensures SumTo(xs, n) <= 0
  {
    if n > 0 {
      SumToNotPositive(xs, n - 1);
    }
  }

  /** An element is at most the sum less the floor of all the others. */
  lemma ElementAtMost(xs: seq<int>, i: nat, b: int)
    requires i < |xs|
    requires forall j :: 0 <= j < |xs| ==> xs[j] >= b
    ensures xs[i] <= Sum(xs) - (|xs| - 1) * b
  {
    hide SumTo;
    SumUpdate(xs, i, b);
    SumToAtLeast(xs[i := b], |xs|, b);
  }

  /** Weights with a positive sum have a positive largest. */
  lemma LargestPositive(xs: seq<int>)
    requires |xs| > 0 && Sum(xs) > 0
    ensures xs[ArgMax(xs)] > 0
    ensures forall i :: 0 <= i < |xs| ==> xs[i] <= xs[ArgMax(xs)]
  {
    hide SumTo, ArgMax;
    WinnerIs(xs, ArgMax(xs));
    if xs[ArgMax(xs)] <= 0 {
      SumToNotPositive(xs, |xs|);
    }
  }

  /** What every pick keeps: the current weights sum to the total and none falls below 1 - T. */
  lemma {:induction false} WeightInvariant(ws: seq<int>, k: nat)
    requires Weighting(ws)
    ensures Sum(After(ws, k)) == Sum(ws)
    ensures forall i :: 0 <= i < |ws| ==> After(ws, k)[i] >= 1 - Sum(ws)
  {
    hide Sum, ArgMax;
    if k > 0 {
      WeightInvariant(ws, k - 1);
      var a := Added(After(ws, k - 1), ws);
      SumAdded(After(ws, k - 1), ws);
      SumUpdate(a, ArgMax(a), a[ArgMax(a)] - Sum(ws));
      LargestPositive(a);
    }
  }

  /** Bounds on the weights in every reachable state, before and after the winner pays. */
  lemma WeightBounds(ws: seq<int>, k: nat, i: nat)
    requires Weighting(ws) && i < |ws|
    ensures 1 - Sum(ws) <= After(ws, k)[i] <= Sum(ws) + (|ws| - 1) * (Sum(ws) - 1)
    ensures Added(After(ws, k), ws)[i] <= 2 * Sum(ws) + (|ws| - 1) * (Sum(ws) - 1)
  {
    var T := Sum(ws);
    WeightInvariant(ws, k);
    SumAdded(After(ws, k), ws);
    ElementAtMost(After(ws, k), i, 1 - T);
    ElementAtMost(Added(After(ws, k), ws), i, 1 - T);
    assert (|ws| - 1) * (1 - T) == -((|ws| - 1) * (T - 1));
  }

  /** One round, seen from one connection. */
  lemma RoundAt(ws: seq<int>, k: nat, i: nat)
    requires |ws| > 0 && i < |ws|
    ensures Added(After(ws, k), ws)[i] == After(ws, k)[i] + ws[i]
    ensures After(ws, k + 1)[i] == After(ws, k)[i] + ws[i] - (if PickAt(ws, k) == i then Sum(ws) else 0)
  {
    hide ArgMax, Sum;
  }

  lemma LedgerRound(k: nat, w: int, t: int, p: int, q: int)
    requires q == 0 || q == 1
    ensures (k + 1) * w - t * p + w - (if q == 1 then t else 0) == (k + 2) * w - t * (p + q)
  {
  }

  /** A current weight is what the connection has earned less what its picks cost. */
  lemma {:induction false} WeightLedger(ws: seq<int>, k: nat, i: nat)
    requires |ws| > 0 && i < |ws|
    ensures After(ws, k)[i] == (k + 1) * ws[i] - Sum(ws) * Picks(ws, i, 0, k)
  {
    hide PickAt, Sum, Step;
    if k > 0 {
      WeightLedger(ws, k - 1, i);
      RoundAt(ws, k - 1, i);
      LedgerRound(k - 1, ws[i], Sum(ws), Picks(ws, i, 0, k - 1), if PickAt(ws, k - 1) == i then 1 else 0);
    }
  }

  /** Fairness of every prefix of a run: no connection is ahead of, or behind, its share by
      more than a fixed amount, however long the run. */
  lemma PrefixFairness(ws: seq<int>, k: nat, i: nat)
    requires Weighting(ws) && i < |ws|
    ensures Sum(ws) * Picks(ws, i, 0, k) <= (k + 1) * ws[i] + Sum(ws) - 1
    ensures Sum(ws) * Picks(ws, i, 0, k) >= (k + 1) * ws[i] - Sum(ws) - (|ws| - 1) * (Sum(ws) - 1)
  {
    WeightLedger(ws, k, i);
    WeightBounds(ws, k, i);
  }

  /** Non-negative integers that sum to 1: one of them is 1, the others are 0. */
  lemma {:induction false} UnitSumTo(ds: seq<int>, n: nat) returns (u: nat)
    requires n <= |ds| && forall i :: 0 <= i < n ==> ds[i] >= 0
    requires SumTo(ds, n) == 1
    ensures u < n && ds[u] == 1
    ensures forall i :: 0 <= i < n && i != u ==> ds[i] == 0
  {
    SumToAtLeast(ds, n - 1, 0);
    if ds[n - 1] == 0 {
      u := UnitSumTo(ds, n - 1);
    } else {
      u := n - 1;
      ZeroSumTo(ds, n - 1);
    }
  }

  lemma {:induction false} ZeroSumTo(ds: seq<int>, n: nat)
    requires n <= |ds| && forall i :: 0 <= i < n ==> ds[i] >= 0
    requires SumTo(ds, n) == 0
    ensures forall i :: 0 <= i < n ==> ds[i] == 0
  {
    if n > 0 {
      SumToAtLeast(ds, n - 1, 0);
      ZeroSumTo(ds, n - 1);
    }
  }

  lemma {:induction false} SumToScaled(ds: seq<int>, xs: seq<int>, t: int, n: nat)
    requires n <= |ds| == |xs| && forall i :: 0 <= i < |ds| ==> xs[i] == t * ds[i]
    ensures SumTo(xs, n) == t * SumTo(ds, n)
  {
    if n > 0 {
      SumToScaled(ds, xs, t, n - 1);
      assert t * (SumTo(ds, n - 1) + ds[n - 1]) == t * SumTo(ds, n - 1) + t * ds[n - 1];
    }
  }

  lemma NegativeMultiple(t: int, d: int)
    requires t >= 1 && d < 0
    ensures t * d <= -t
  {
    assert t * (-1 - d) >= 0;
  }

  lemma PositiveFactor(t: int, d: int)
    requires t >= 1
    ensures t * d >= 1 - t ==> d >= 0
    ensures t * d == t ==> d == 1
    ensures t * d == 0 ==> d == 0
  {
    if d < 0 {
      NegativeMultiple(t, d);
    } else if d > 1 {
      NegativeMultiple(t, 1 - d);
    }
  }

  /** One pick before the period ends a single connection holds the whole total. */
  lemma BeforePeriod(ws: seq<int>) returns (u: nat)
    requires Weighting(ws)
    ensures u < |ws| && ws[u] >= 1 && After(ws, Sum(ws) - 1)[u] == Sum(ws)
    ensures var cs := After(ws, Sum(ws) - 1); forall i :: 0 <= i < |ws| && i != u ==> cs[i] == 0
  {
    hide SumTo, After;
    var T := Sum(ws);
    var cs := After(ws, T - 1);
    var ds := seq(|ws|, i requires 0 <= i < |ws| => ws[i] - Picks(ws, i, 0, T - 1));
    WeightInvariant(ws, T - 1);
    forall i | 0 <= i < |ws| ensures cs[i] == T * ds[i] && ds[i] >= 0 {
      WeightLedger(ws, T - 1, i);
      assert T * (ws[i] - Picks(ws, i, 0, T - 1)) == T * ws[i] - T * Picks(ws, i, 0, T - 1);
      PositiveFactor(T, ds[i]);
    }
    SumToScaled(ds, cs, T, |ws|);
    PositiveFactor(T, Sum(ds));
    u := UnitSumTo(ds, |ws|);
  }

  /** T picks bring every current weight back to where the builder put it. */
  lemma FullPeriod(ws: seq<int>)
    requires Weighting(ws)
    ensures After(ws, Sum(ws)) == ws
  {
    hide Sum, Step, ArgMax;
    var T := Sum(ws);
    var u := BeforePeriod(ws);
    var b := PickAt(ws, T - 1);
    RoundAt(ws, T - 1, b);
    RoundAt(ws, T - 1, u);
    ElementAtMost(ws, b, 0);
    WinnerIs(Added(After(ws, T - 1), ws), b);
    assert b == u;
    forall i | 0 <= i < |ws| ensures After(ws, T)[i] == ws[i] {
      RoundAt(ws, T - 1, i);
    }
  }

  /** The run is periodic from any point on, in its states and in its picks. */
  lemma {:induction false} Periodic(ws: seq<int>, k: nat)
    requires Weighting(ws)
    ensures After(ws, k + Sum(ws)) == After(ws, k)
    ensures PickAt(ws, k + Sum(ws)) == PickAt(ws, k)
  {
    hide Sum, Step, Added, ArgMax;
    if k == 0 {
      FullPeriod(ws);
    } else {
      Periodic(ws, k - 1);
    }
  }

  lemma {:induction false} PicksSplit(ws: seq<int>, i: nat, a: nat, b: nat, c: nat)
    requires |ws| > 0 && a <= b <= c
    ensures Picks(ws, i, a, c) == Picks(ws, i, a, b) + Picks(ws, i, b, c)
    decreases c
  {
    hide PickAt;
    if b < c {
      PicksSplit(ws, i, a, b, c - 1);
    }
  }

  lemma LedgerPeriod(k: nat, t: int, w: int, m: int, n: int)
    requires t >= 1
    requires (k + 1) * w - t * m == (k + t + 1) * w - t * (m + n)
    ensures n == w
  {
    assert t * (n - w) == 0;
    PositiveFactor(t, n - w);
  }

  /** Exact shares: any T consecutive picks, wherever they start, give each connection exactly
      as many picks as its weight. */
  lemma ExactShares(ws: seq<int>, k: nat, i: nat)
    requires Weighting(ws) && i < |ws|
    ensures Picks(ws, i, k, k + Sum(ws)) == ws[i]
  {
    hide Sum, After, Picks, PickAt;
    var T := Sum(ws);
    Periodic(ws, k);
    WeightLedger(ws, k, i);
    WeightLedger(ws, k + T, i);
    PicksSplit(ws, i, 0, k, k + T);
    LedgerPeriod(k, T, ws[i], Picks(ws, i, 0, k), Picks(ws, i, k, k + T));
  }

  // ---------------------------------------------------------------- the unsigned picker

  /** The unsigned current weights after `k` picks from a freshly built picker. */
  function AfterU32(ws: seq<int>, k: nat): (r: seq<int>)
    requires |ws| > 0
    ensures |r| == |ws|
  {
    if k == 0 then ws else StepU32(AfterU32(ws, k - 1), ws)
  }

  function PickAtU32(ws: seq<int>, k: nat): (r: nat)
    requires |ws| > 0
    ensures r < |ws|
  {
    ArgMax(Wrap(Added(AfterU32(ws, k), ws)))
  }

  lemma NextRound(ws: seq<int>, k: nat)
    requires |ws| > 0
    ensures PickAtU32(ws, k) == ArgMax(Wrap(Added(AfterU32(ws, k), ws)))
    ensures AfterU32(ws, k + 1) == StepU32(AfterU32(ws, k), ws)
  {
  }

  lemma U32Fits(x: int)
    ensures 0 <= x < 0x1_0000_0000 ==> U32(x) == x
    ensures -0x1_0000_0000 <= x < 0 ==> U32(x) == x + 0x1_0000_0000
  {
  }

  lemma U32Add(x: int, y: int, w: int)
    requires U32(x) == U32(y)
    ensures U32(x + w) == U32(y + w)
  {
  }

  lemma U32Sub(x: int, y: int, w: int)
    requires U32(x) == U32(y)
    ensures U32(U32(x) - U32(w)) == U32(y - w)
  {
  }

  /** One unsigned round, seen from one connection. */
  lemma RoundAtU32(ws: seq<int>, k: nat, i: nat)
    requires |ws| > 0 && i < |ws|
    ensures AfterU32(ws, k + 1)[i] ==
      if PickAtU32(ws, k) == i then U32(U32(AfterU32(ws, k)[i] + ws[i]) - U32(Sum(ws)))
      else U32(AfterU32(ws, k)[i] + ws[i])
  {
    hide ArgMax, Sum, U32;
  }

  /** As long as the picks agree, the unsigned weights are the integer ones modulo 2^32. */
  lemma {:induction false} Congruent(ws: seq<int>, k: nat, i: nat)
    requires |ws| > 0 && i < |ws|
    requires forall j :: 0 <= j < k ==> SamePick(ws, j)
    ensures U32(AfterU32(ws, k)[i]) == U32(After(ws, k)[i])
  {
    hide Sum, Step, StepU32, PickAt, PickAtU32, U32;
    if k > 0 {
      Congruent(ws, k - 1, i);
      RoundAt(ws, k - 1, i);
      RoundAtU32(ws, k - 1, i);
      var x, y := AfterU32(ws, k - 1)[i], After(ws, k - 1)[i];
      U32Add(x, y, ws[i]);
      U32Sub(x + ws[i], y + ws[i], Sum(ws));
      U32Fits(AfterU32(ws, k)[i]);
      assert SamePick(ws, k - 1);
    }
  }

  /** The unsigned comparison, of numbers that are at least 1 - t and at most `m`: it picks
      the same winner iff none of them is negative. */
  lemma ComparisonAgrees(a: seq<int>, t: int, m: int)
    requires |a| > 0 && Sum(a) > 0 && t >= 1 && m + t <= 0x1_0000_0000
    requires forall i :: 0 <= i < |a| ==> 1 - t <= a[i] <= m
    ensures ArgMax(Wrap(a)) == ArgMax(a) <==> forall i :: 0 <= i < |a| ==> a[i] >= 0
  {
    hide Sum, ArgMax, U32;
    LargestPositive(a);
    WinnerIs(Wrap(a), ArgMax(Wrap(a)));
    forall i | 0 <= i < |a|
      ensures Wrap(a)[i] == if a[i] < 0 then a[i] + 0x1_0000_0000 else a[i]
    {
      U32Fits(a[i]);
    }
    if forall i :: 0 <= i < |a| ==> a[i] >= 0 {
      assert Wrap(a) == a;
    } else {
      var n :| 0 <= n < |a| && a[n] < 0;
      assert Wrap(a)[n] > Wrap(a)[ArgMax(a)];
    }
  }

  /** Where the weights before a round are congruent, its two picks are equal iff no integer
      weight is negative in the comparison. */
  lemma RoundAgrees(ws: seq<int>, k: nat)
    requires Weighting(ws)
    requires 3 * Sum(ws) + (|ws| - 1) * (Sum(ws) - 1) <= 0x1_0000_0000
    requires forall i :: 0 <= i < |ws| ==> U32(AfterU32(ws, k)[i]) == U32(After(ws, k)[i])
    ensures SamePick(ws, k) <==> ComparesNonNegative(ws, k)
  {
    hide Sum, ArgMax, U32, After, AfterU32;
    var cs, us := After(ws, k), AfterU32(ws, k);
    var a := Added(cs, ws);
    forall i | 0 <= i < |ws| ensures U32(us[i] + ws[i]) == U32(a[i]) {
      U32Add(us[i], cs[i], ws[i]);
    }
    assert Wrap(Added(us, ws)) == Wrap(a);
    WeightInvariant(ws, k);
    SumAdded(cs, ws);
    var m := 2 * Sum(ws) + (|ws| - 1) * (Sum(ws) - 1);
    forall i | 0 <= i < |ws| ensures 1 - Sum(ws) <= a[i] <= m {
      WeightBounds(ws, k, i);
    }
    ComparisonAgrees(a, Sum(ws), m);
  }

  /** No integer weight is negative when pick number `k` compares them. */
  predicate ComparesNonNegative(ws: seq<int>, k: nat)
    requires |ws| > 0
  {
    forall i :: 0 <= i < |ws| ==> Added(After(ws, k), ws)[i] >= 0
  }

  predicate SamePick(ws: seq<int>, k: nat)
    requires |ws| > 0
  {
    PickAtU32(ws, k) == PickAt(ws, k)
  }

  /** The unsigned picker makes the same first `k` picks as the integer one iff no integer
      weight is negative when those picks are compared. */
  lemma {:induction false} PicksAgreeExactly(ws: seq<int>, k: nat)
    requires Weighting(ws)
    requires 3 * Sum(ws) + (|ws| - 1) * (Sum(ws) - 1) <= 0x1_0000_0000
    ensures (forall j :: 0 <= j < k ==> SamePick(ws, j)) <==>
      (forall j :: 0 <= j < k ==> ComparesNonNegative(ws, j))
  {
    hide Sum, SamePick, ComparesNonNegative, After, AfterU32, U32;
    if k > 0 {
      var m: nat := k - 1;
      PicksAgreeExactly(ws, m);
      if forall j :: 0 <= j < m ==> SamePick(ws, j) {
        forall i | 0 <= i < |ws| ensures U32(AfterU32(ws, m)[i]) == U32(After(ws, m)[i]) {
          Congruent(ws, m, i);
        }
        RoundAgrees(ws, m);
      }
    }
  }

  predicate AtMostTwoPositive(ws: seq<int>)
  {
    forall i, j, l :: 0 <= i < j < l < |ws| ==> ws[i] <= 0 || ws[j] <= 0 || ws[l] <= 0
  }

  lemma {:induction false} LargestOfTwo(xs: seq<int>, n: nat, b: int)
    requires AtMostTwoPositive(xs) && b >= 0 && n <= |xs|
    requires forall i :: 0 <= i < n ==> xs[i] <= b
    ensures SumTo(xs, n) <= 2 * b
    ensures (forall i, j :: 0 <= i < j < n ==> xs[i] <= 0 || xs[j] <= 0) ==> SumTo(xs, n) <= b
    ensures (forall i :: 0 <= i < n ==> xs[i] <= 0) ==> SumTo(xs, n) <= 0
  {
    if n > 0 {
      LargestOfTwo(xs, n - 1, b);
      if xs[n - 1] > 0 {
        assert forall i, j :: 0 <= i < j < n - 1 ==> xs[i] <= 0 || xs[j] <= 0;
      }
    }
  }

  /** A round from weights that are not negative and sum to the total: nothing wraps iff the
      winner can pay. */
  lemma RoundExact(cs: seq<int>, ws: seq<int>)
    requires |cs| == |ws| && Weighting(ws) && 2 * Sum(ws) < 0x1_0000_0000
    requires Sum(cs) == Sum(ws) && forall i :: 0 <= i < |cs| ==> cs[i] >= 0
    ensures StepU32(cs, ws) == Step(cs, ws) <==> Added(cs, ws)[ArgMax(Added(cs, ws))] >= Sum(ws)
  {
    hide Sum, ArgMax, U32;
    var a, T := Added(cs, ws), Sum(ws);
    SumAdded(cs, ws);
    forall i | 0 <= i < |a| ensures Wrap(a)[i] == a[i] {
      ElementAtMost(a, i, 0);
      U32Fits(a[i]);
    }
    assert Wrap(a) == a;
    var b := ArgMax(a);
    U32Fits(T);
    U32Fits(a[b] - T);
    ElementAtMost(a, b, 0);
    assert StepU32(cs, ws)[b] == U32(a[b] - T) && Step(cs, ws)[b] == a[b] - T;
  }

  /** Connections without weight never gain any. */
  lemma {:induction false} ZeroStaysZero(ws: seq<int>, k: nat, i: nat)
    requires Weighting(ws) && i < |ws| && ws[i] == 0
    ensures After(ws, k)[i] == 0
  {
    hide Sum, ArgMax, Step;
    if k > 0 {
      ZeroStaysZero(ws, k - 1, i);
      RoundAt(ws, k - 1, i);
      WeightInvariant(ws, k - 1);
      SumAdded(After(ws, k - 1), ws);
      LargestPositive(Added(After(ws, k - 1), ws));
    }
  }

  /** With two connections the winner can always pay: it holds half of twice the total. */
  lemma TwoCanPay(ws: seq<int>, k: nat)
    requires Weighting(ws) && AtMostTwoPositive(ws)
    ensures Added(After(ws, k), ws)[PickAt(ws, k)] >= Sum(ws)
  {
    hide SumTo, ArgMax, After;
    var a := Added(After(ws, k), ws);
    WeightInvariant(ws, k);
    SumAdded(After(ws, k), ws);
    LargestPositive(a);
    forall i | 0 <= i < |ws| && ws[i] == 0 ensures a[i] == 0 {
      ZeroStaysZero(ws, k, i);
    }
    LargestOfTwo(a, |a|, a[ArgMax(a)]);
  }

  lemma {:induction false} TwoNeverWrap(ws: seq<int>, k: nat)
    requires Weighting(ws) && 2 * Sum(ws) < 0x1_0000_0000 && AtMostTwoPositive(ws)
    ensures AfterU32(ws, k) == After(ws, k)
    ensures forall i :: 0 <= i < |ws| ==> After(ws, k)[i] >= 0
  {
    hide Sum, ArgMax, Step, StepU32, Added;
    if k > 0 {
      var cs := After(ws, k - 1);
      TwoNeverWrap(ws, k - 1);
      TwoCanPay(ws, k - 1);
      WeightInvariant(ws, k - 1);
      RoundExact(cs, ws);
      forall i | 0 <= i < |ws| ensures After(ws, k)[i] >= 0 {
        RoundAt(ws, k - 1, i);
      }
    }
  }

  /** With three positive weights some weight is negative two picks before the period ends. */
  lemma ThreeGoNegative(ws: seq<int>, i: nat, j: nat, l: nat) returns (z: nat)
    requires Weighting(ws)
    requires i < j < l < |ws| && ws[i] > 0 && ws[j] > 0 && ws[l] > 0
    ensures z < |ws| && Sum(ws) >= 2 && After(ws, Sum(ws) - 2)[z] < 0
  {
    hide Sum, ArgMax, Step, Added, PickAt, After;
    SumUpdate(ws, i, 0);
    ElementAtMost(ws[i := 0], j, 0);
    var T := Sum(ws);
    var u := BeforePeriod(ws);
    var b := PickAt(ws, T - 2);
    z := if i != u && i != b then i else if j != u && j != b then j else l;
    RoundAt(ws, T - 2, z);
    assert T - 2 + 1 == T - 1;
  }

  lemma {:induction false} U32NotNegative(ws: seq<int>, k: nat, i: nat)
    requires Weighting(ws) && i < |ws|
    ensures AfterU32(ws, k)[i] >= 0
  {
    hide Sum, ArgMax;
    if k > 0 {
      U32NotNegative(ws, k - 1, i);
    }
  }

  /** Any number of connections: the unsigned weights are the integer ones up to pick number `k`
      iff in every one of these picks the winner, before it pays, holds at least the total. */
  lemma {:induction false} RunExactly(ws: seq<int>, k: nat)
    requires Weighting(ws) && 2 * Sum(ws) < 0x1_0000_0000
    ensures (forall j :: 0 <= j <= k ==> SameWeights(ws, j)) <==> (forall j :: 0 <= j < k ==> WinnerCanPay(ws, j))
  {
    hide Sum, SameWeights, WinnerCanPay;
    if k == 0 {
      RunsStartAlike(ws);
    } else {
      RunExactly(ws, k - 1);
      if SameWeights(ws, k - 1) {
        NextExactly(ws, k - 1);
      }
    }
  }

  predicate SameWeights(ws: seq<int>, k: nat)
    requires |ws| > 0
  {
    AfterU32(ws, k) == After(ws, k)
  }

  predicate WinnerCanPay(ws: seq<int>, k: nat)
    requires |ws| > 0
  {
    Added(After(ws, k), ws)[PickAt(ws, k)] >= Sum(ws)
  }

  lemma RunsStartAlike(ws: seq<int>)
    requires |ws| > 0
    ensures SameWeights(ws, 0)
  {
  }

  lemma NextExactly(ws: seq<int>, k: nat)
    requires Weighting(ws) && 2 * Sum(ws) < 0x1_0000_0000 && SameWeights(ws, k)
    ensures SameWeights(ws, k + 1) <==> WinnerCanPay(ws, k)
  {
    hide Sum, ArgMax, Step, StepU32, Added;
    WeightInvariant(ws, k);
    forall i | 0 <= i < |ws| ensures After(ws, k)[i] >= 0 {
      U32NotNegative(ws, k, i);
    }
    RoundExact(After(ws, k), ws);
  }

  /** The picks agree for ever iff no weight is negative in the comparisons of the first period. */
  lemma AgreeForEverExactly(ws: seq<int>)
    requires Weighting(ws)
    requires 3 * Sum(ws) + (|ws| - 1) * (Sum(ws) - 1) <= 0x1_0000_0000
    ensures (forall k: nat :: SamePick(ws, k)) <==> (forall k :: 0 <= k < Sum(ws) ==> ComparesNonNegative(ws, k))
  {
    hide Sum, SamePick, ComparesNonNegative, After, AfterU32;
    PicksAgreeExactly(ws, Sum(ws));
    if forall k :: 0 <= k < Sum(ws) ==> ComparesNonNegative(ws, k) {
      forall k: nat ensures SamePick(ws, k) {
        forall j | 0 <= j < k + 1 ensures ComparesNonNegative(ws, j) {
          ComparesInPeriod(ws, j);
        }
        PicksAgreeExactly(ws, k + 1);
      }
    }
  }

  lemma {:induction false} ComparesInPeriod(ws: seq<int>, k: nat)
    requires Weighting(ws) && forall j :: 0 <= j < Sum(ws) ==> ComparesNonNegative(ws, j)
    ensures ComparesNonNegative(ws, k)
  {
    hide Sum, After;
    if k >= Sum(ws) {
      ComparesInPeriod(ws, k - Sum(ws));
      Periodic(ws, k - Sum(ws));
    }
  }

  /** With weights 1, 1, 1 the picks agree for ever, although the weights do not. */
  lemma OneOneOne()
    ensures forall k: nat :: SamePick([1, 1, 1], k)
    ensures !forall k: nat :: AfterU32([1, 1, 1], k) == After([1, 1, 1], k)
  {
    hide ArgMax, Step, StepU32, Added, SamePick;
    var ws := [1, 1, 1];
    assert SumTo(ws, 1) == 1 && SumTo(ws, 2) == 2 && Sum(ws) == 3;
    RoundOfOnes([1, 1, 1], [2, 2, 2], 0);
    assert After(ws, 1) == [-1, 2, 2];
    RoundOfOnes([-1, 2, 2], [0, 3, 3], 1);
    assert After(ws, 2) == [0, 0, 3];
    RoundOfOnes([0, 0, 3], [1, 1, 4], 2);
    forall k | 0 <= k < 3 ensures ComparesNonNegative(ws, k) {
      if k == 0 {
        assert Added(After(ws, 0), ws) == [2, 2, 2];
      } else if k == 1 {
        assert Added(After(ws, 1), ws) == [0, 3, 3];
      } else {
        assert Added(After(ws, 2), ws) == [1, 1, 4];
      }
    }
    AgreeForEverExactly(ws);
    assert !AtMostTwoPositive(ws) by {
      assert ws[0] > 0 && ws[1] > 0 && ws[2] > 0;
    }
    NeverWrapsExactly(ws);
  }

  lemma RoundOfOnes(cs: seq<int>, a: seq<int>, b: nat)
    requires |cs| == 3 && b < 3
    requires a == [cs[0] + 1, cs[1] + 1, cs[2] + 1]
    requires forall i :: 0 <= i < 3 ==> a[i] <= a[b]
    requires forall i :: 0 <= i < b ==> a[i] < a[b]
    ensures Added(cs, [1, 1, 1]) == a && ArgMax(a) == b
    ensures Step(cs, [1, 1, 1]) == a[b := a[b] - 3]
  {
    hide ArgMax;
    assert SumTo([1, 1, 1], 1) == 1 && Sum([1, 1, 1]) == 3;
    assert Added(cs, [1, 1, 1]) == a;
    WinnerIs(a, b);
  }

  /** The unsigned picker's weights are the integer ones for ever iff at most two connections
      have a positive weight; from three on, some subtraction goes below zero. */
  lemma NeverWrapsExactly(ws: seq<int>)
    requires Weighting(ws) && 2 * Sum(ws) < 0x1_0000_0000
    ensures (forall k: nat :: AfterU32(ws, k) == After(ws, k)) <==> AtMostTwoPositive(ws)
  {
    hide Sum, After, AfterU32;
    if AtMostTwoPositive(ws) {
      forall k: nat ensures AfterU32(ws, k) == After(ws, k) {
        TwoNeverWrap(ws, k);
      }
    } else {
      var i, j, l :| 0 <= i < j < l < |ws| && ws[i] > 0 && ws[j] > 0 && ws[l] > 0;
      var z := ThreeGoNegative(ws, i, j, l);
      U32NotNegative(ws, Sum(ws) - 2, z);
    }
  }

  /** A round of the weights 5, 1, 1, where `a` are the weights compared and `b` the winner. */
  lemma RoundIs(cs: seq<int>, a: seq<int>, b: nat)
    requires |cs| == 3 && b < 3
    requires a == [cs[0] + 5, cs[1] + 1, cs[2] + 1]
    requires forall i :: 0 <= i < 3 ==> a[i] <= a[b]
    requires forall i :: 0 <= i < b ==> a[i] < a[b]
    ensures Added(cs, [5, 1, 1]) == a && ArgMax(a) == b
    ensures Step(cs, [5, 1, 1]) == a[b := a[b] - 7]
  {
    hide ArgMax;
    assert SumTo([5, 1, 1], 1) == 5 && Sum([5, 1, 1]) == 7;
    assert Added(cs, [5, 1, 1]) == a;
    WinnerIs(a, b);
  }

  lemma RoundIsU32(cs: seq<int>, a: seq<int>, b: nat)
    requires |cs| == 3 && b < 3
    requires a == [U32(cs[0] + 5), U32(cs[1] + 1), U32(cs[2] + 1)]
    requires forall i :: 0 <= i < 3 ==> a[i] <= a[b]
    requires forall i :: 0 <= i < b ==> a[i] < a[b]
    ensures Wrap(Added(cs, [5, 1, 1])) == a && ArgMax(a) == b
    ensures StepU32(cs, [5, 1, 1]) == a[b := U32(a[b] - 7)]
  {
    hide ArgMax;
    assert SumTo([5, 1, 1], 1) == 5 && Sum([5, 1, 1]) == 7;
    assert Wrap(Added(cs, [5, 1, 1])) == a;
    WinnerIs(a, b);
  }

  lemma FiveOneOneStates()
    ensures After([5, 1, 1], 4) == [4, -2, 5]
    ensures AfterU32([5, 1, 1], 4) == [4, 0xFFFF_FFFE, 5]
    ensures forall k :: 0 <= k < 4 ==> SamePick([5, 1, 1], k)
  {
    hide ArgMax, Step, StepU32, Added, Wrap;
    var ws := [5, 1, 1];
    RoundIs(ws, [10, 2, 2], 0);
    RoundIsU32(ws, [10, 2, 2], 0);
    assert After(ws, 1) == [3, 2, 2] == AfterU32(ws, 1) && SamePick(ws, 0);
    RoundIs([3, 2, 2], [8, 3, 3], 0);
    RoundIsU32([3, 2, 2], [8, 3, 3], 0);
    assert After(ws, 2) == [1, 3, 3] == AfterU32(ws, 2) && SamePick(ws, 1);
    RoundIs([1, 3, 3], [6, 4, 4], 0);
    RoundIsU32([1, 3, 3], [6, 4, 4], 0);
    assert After(ws, 3) == [-1, 4, 4] && AfterU32(ws, 3) == [0xFFFF_FFFF, 4, 4] && SamePick(ws, 2);
    RoundIs([-1, 4, 4], [4, 5, 5], 1);
    RoundIsU32([0xFFFF_FFFF, 4, 4], [4, 5, 5], 1);
    assert SamePick(ws, 3);
  }

  /** With weights 5, 1, 1 the two pickers part at the fifth pick. */
  lemma FiveOneOne()
    ensures forall k :: 0 <= k < 4 ==> SamePick([5, 1, 1], k)
    ensures PickAtU32([5, 1, 1], 4) == 1 && PickAt([5, 1, 1], 4) == 0
  {
    hide ArgMax, Step, StepU32, Added, Wrap, After, AfterU32;
    FiveOneOneStates();
    RoundIs([4, -2, 5], [9, -1, 6], 0);
    RoundIsU32([4, 0xFFFF_FFFE, 5], [9, 0xFFFF_FFFF, 6], 1);
  }
}
