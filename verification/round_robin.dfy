/** The plain round robin of rpc/homework2/loadbalance/roundrobin/balancer.go: a filter and a
    64-bit counter. */
module RoundRobin {
  import opened Wrappers

  datatype Instance = Instance(sub: nat, address: string)

  /** What a pick is asked for; the filter decides which instances may serve it. */
  datatype PickInfo = PickInfo(name: string, tags: seq<string>)

  type Filter = (PickInfo, string) -> bool

  /** The first `n` instances that pass the filter. */
  function Passing(ins: seq<Instance>, filter: Filter, info: PickInfo, n: nat): (r: seq<Instance>)
    requires n <= |ins|
    ensures |r| <= n
  {
    if n == 0 then [] else
    var r := Passing(ins, filter, info, n - 1);
    if filter(info, ins[n - 1].address) then r + [ins[n - 1]] else r
  }

  /** The candidates are the instances that pass the filter, each at its place once and in the order
      of the instances: `places` are the places of just those, in increasing order. */
  lemma {:induction false} PassingExact(ins: seq<Instance>, filter: Filter, info: PickInfo, n: nat)
    returns (places: seq<nat>)
    requires n <= |ins|
    ensures |places| == |Passing(ins, filter, info, n)|
    ensures forall i :: 0 <= i < |places| ==> places[i] < n && Passing(ins, filter, info, n)[i] == ins[places[i]]
    ensures forall i, j :: 0 <= i < j < |places| ==> places[i] < places[j]
    ensures forall k :: 0 <= k < n ==> (k in places <==> filter(info, ins[k].address))
  {
    if n == 0 {
      places := [];
    } else {
      places := PassingExact(ins, filter, info, n - 1);
      if filter(info, ins[n - 1].address) {
        places := places + [n - 1];
      }
    }
  }

  /** `atomic.AddUint64` of one. */
  function Next(c: nat): nat
  {
    (c + 1) % 0x1_0000_0000_0000_0000
  }

  /** The counter after `j` picks that found a candidate. */
  function CountAfter(c: nat, j: nat): (d: nat)
    requires c < 0x1_0000_0000_0000_0000
    ensures d == (c + j) % 0x1_0000_0000_0000_0000
  {
    if j == 0 then c else Next(CountAfter(c, j - 1))
  }

  /** Which of `m` candidates the `j`th pick after a count of `c` takes. */
  function Index(c: nat, j: nat, m: nat): (i: nat)
    requires c < 0x1_0000_0000_0000_0000 && m > 0
    ensures i < m
  {
    CountAfter(c, j) % m
  }

  class Picker {
    const ins: seq<Instance>
    const filter: Filter
    var cnt: nat

    constructor (ins: seq<Instance>, filter: Filter)
      ensures this.ins == ins && this.filter == filter && cnt == 0
    {
      this.ins, this.filter, cnt := ins, filter, 0;
    }

    method Pick(info: PickInfo) returns (r: Option<Instance>)
      modifies this
      ensures var candidates := Passing(ins, filter, info, |ins|);
        if candidates == [] then r == None && cnt == old(cnt) else
        r == Some(candidates[Next(old(cnt)) % |candidates|]) && cnt == Next(old(cnt))
      ensures r == None <==> forall i :: 0 <= i < |ins| ==> !filter(info, ins[i].address)
      ensures r != None ==> r.value in ins && filter(info, r.value.address)
    {
      ghost var places := PassingExact(ins, filter, info, |ins|);
      var candidates := [];
      for i := 0 to |ins|
        invariant candidates == Passing(ins, filter, info, i)
      {
        var sub := ins[i];
        if !filter(info, sub.address) {
          continue;
        }
        candidates := candidates + [sub];
      }
      if |candidates| == 0 {
        return None;
      }
      cnt := (cnt + 1) % 0x1_0000_0000_0000_0000;
      var index := cnt % |candidates|;
      assert candidates[index] == ins[places[index]];
      return Some(candidates[index]);
    }
  }

  /** The `m` picks after a count of `c`, among the same `m` candidates, take each exactly once. */
  ghost predicate EachOnce(c: nat, m: nat)
    requires c < 0x1_0000_0000_0000_0000 && m > 0
  {
    && (forall i, j :: 1 <= i < j <= m ==> Index(c, i, m) != Index(c, j, m))
    && (forall k :: 0 <= k < m ==> Taken(c, m, k))
  }

  ghost predicate Taken(c: nat, m: nat, k: nat)
    requires c < 0x1_0000_0000_0000_0000 && m > 0
  {
    exists j :: 1 <= j <= m && Index(c, j, m) == k
  }

  lemma Multiple(k: int, m: int)
    requires k != 0 && m > 0
    ensures k * m >= m || k * m <= -m
  {
    if k >= 1 {
      assert (k - 1) * m >= 0;
    } else {
      assert (-k - 1) * m >= 0;
    }
  }

  /** A number has one quotient and one remainder. */
  lemma OneRemainder(q: int, r: nat, d: int, e: nat, m: nat)
    requires r < m && e < m && q * m + r == d * m + e
    ensures q == d && r == e
  {
    assert (q - d) * m == q * m - d * m;
    if q != d {
      Multiple(q - d, m);
    }
  }

  lemma Remainder(x: nat, q: nat, r: nat, m: nat)
    requires r < m && x == q * m + r
    ensures x % m == r
  {
    OneRemainder(q, r, x / m, x % m, m);
  }

  /** Numbers less than `m` apart have different remainders. */
  lemma RemaindersDiffer(x: nat, y: nat, m: nat)
    requires 0 < y - x < m
    ensures x % m != y % m
  {
    if x % m == y % m {
      var a, b := x / m, y / m;
      assert x == a * m + x % m && y == b * m + y % m;
      assert (b - a) * m == b * m - a * m;
      if b != a {
        Multiple(b - a, m);
      }
    }
  }

  lemma RemainderHit(x: nat, k: nat, m: nat) returns (j: nat)
    requires k < m
    ensures 1 <= j <= m && (x + j) % m == k
  {
    var r := (x + 1) % m;
    if r <= k {
      j := k - r + 1;
      Remainder(x + j, (x + 1) / m, k, m);
    } else {
      j := k + m - r + 1;
      Remainder(x + j, (x + 1) / m + 1, k, m);
    }
  }

  /** A window of as many picks as there are candidates takes each candidate exactly once, unless
      the counter wraps inside the window and the number of candidates does not divide 2^64. */
  lemma WindowExact(c: nat, m: nat)
    requires c < 0x1_0000_0000_0000_0000 && 0 < m < 0x8000_0000_0000_0000
    ensures EachOnce(c, m) <==>
      || c + m < 0x1_0000_0000_0000_0000
      || c + 1 == 0x1_0000_0000_0000_0000
      || 0x1_0000_0000_0000_0000 % m == 0
  {
    hide EachOnce;
    if c + m < 0x1_0000_0000_0000_0000 || 0x1_0000_0000_0000_0000 % m == 0 {
      NoBreak(c, m);
    } else if c + 1 == 0x1_0000_0000_0000_0000 {
      FromStart(c, m);
    } else {
      Collision(c, m);
    }
  }

  lemma NoBreak(c: nat, m: nat)
    requires c < 0x1_0000_0000_0000_0000 && 0 < m < 0x8000_0000_0000_0000
    requires c + m < 0x1_0000_0000_0000_0000 || 0x1_0000_0000_0000_0000 % m == 0
    ensures EachOnce(c, m)
  {
    hide EachOnce;
    forall j | 1 <= j <= m ensures Index(c, j, m) == (c + j) % m {
      Wrapped(c + j, m);
    }
    Consecutive(c, m);
  }

  lemma FromStart(c: nat, m: nat)
    requires c + 1 == 0x1_0000_0000_0000_0000 && 0 < m < 0x8000_0000_0000_0000
    ensures EachOnce(c, m)
  {
    hide Index;
    forall j | 1 <= j <= m ensures Index(c, j, m) == j - 1 {
      IndexIs(c, j, j - 1, 0, j - 1, m);
    }
    forall k | 0 <= k < m ensures Taken(c, m, k) {
      assert Index(c, k + 1, m) == k;
    }
  }

  lemma Wrapped(x: nat, m: nat)
    requires 0 < m && x < 0x2_0000_0000_0000_0000
    requires x < 0x1_0000_0000_0000_0000 || 0x1_0000_0000_0000_0000 % m == 0
    ensures x % 0x1_0000_0000_0000_0000 % m == x % m
  {
    if x >= 0x1_0000_0000_0000_0000 {
      var y := x - 0x1_0000_0000_0000_0000;
      var q := 0x1_0000_0000_0000_0000 / m;
      assert y == (y / m) * m + y % m;
      assert (y / m + q) * m == (y / m) * m + q * m;
      Remainder(x, y / m + q, y % m, m);
    }
  }

  lemma Consecutive(c: nat, m: nat)
    requires c < 0x1_0000_0000_0000_0000 && 0 < m && forall j :: 1 <= j <= m ==> Index(c, j, m) == (c + j) % m
    ensures EachOnce(c, m)
  {
    hide Index;
    forall i, j | 1 <= i < j <= m ensures Index(c, i, m) != Index(c, j, m) {
      RemaindersDiffer(c + i, c + j, m);
    }
    forall k | 0 <= k < m ensures Taken(c, m, k) {
      var j := RemainderHit(c, k, m);
      assert Index(c, j, m) == k;
    }
  }

  /** After `a` picks the counter wraps; a candidate of before is taken again after. */
  lemma Collision(c: nat, m: nat)
    requires c + 1 < 0x1_0000_0000_0000_0000 <= c + m && 0 < m < 0x8000_0000_0000_0000
    requires 0x1_0000_0000_0000_0000 % m != 0
    ensures !EachOnce(c, m)
  {
    hide Index;
    var a := 0x1_0000_0000_0000_0000 - 1 - c;
    var r := 0x1_0000_0000_0000_0000 % m;
    if a <= r {
      IndexIs(c, 1, 0x1_0000_0000_0000_0000 - a, 0x1_0000_0000_0000_0000 / m, r - a, m);
      IndexIs(c, r + 1, r - a, 0, r - a, m);
    } else {
      IndexIs(c, a + 1 - r, 0x1_0000_0000_0000_0000 - r, 0x1_0000_0000_0000_0000 / m, 0, m);
      IndexIs(c, a + 1, 0, 0, 0, m);
    }
  }

  lemma IndexIs(c: nat, j: nat, x: nat, q: nat, r: nat, m: nat)
    requires c < 0x1_0000_0000_0000_0000 && r < m && x == q * m + r
    requires x == (c + j) % 0x1_0000_0000_0000_0000
    ensures Index(c, j, m) == r
  {
    Remainder(x, q, r, m);
  }

  /** Three candidates and a counter two below 2^64: the first candidate is taken twice in a row,
      and the last one not at all. */
  lemma WrappingWindow()
    ensures Index(0xFFFF_FFFF_FFFF_FFFE, 1, 3) == 0 && Index(0xFFFF_FFFF_FFFF_FFFE, 2, 3) == 0
    ensures Index(0xFFFF_FFFF_FFFF_FFFE, 3, 3) == 1 && !Taken(0xFFFF_FFFF_FFFF_FFFE, 3, 2)
  {
    IndexIs(0xFFFF_FFFF_FFFF_FFFE, 1, 0xFFFF_FFFF_FFFF_FFFF, 0x5555_5555_5555_5555, 0, 3);
    IndexIs(0xFFFF_FFFF_FFFF_FFFE, 2, 0, 0, 0, 3);
    IndexIs(0xFFFF_FFFF_FFFF_FFFE, 3, 1, 0, 1, 3);
  }
}
