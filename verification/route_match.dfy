/** Lookup in the route tree of web/homework2/route.go, as functions of the tree's value: which
    node `findRoute` goes to and which nodes' middlewares `findMdls` collects. */
module RouteMatch {
  import opened Wrappers
  import opened RouteTrie

  predicate MatchesSeg(pattern: string, seg: string)
  {
    Star(pattern) || Param(pattern) || pattern == seg
  }

  predicate Matches(pattern: Path, req: seq<string>)
  {
    |pattern| == |req| && forall i :: 0 <= i < |req| ==> MatchesSeg(pattern[i], req[i])
  }

  // ---------------------------------------------------------------- the greedy lookup

  predicate StaticChild(t: Trie, p: Path, seg: string)
  {
    !Wild(seg) && p + [seg] in t
  }

  /** The child that `childOf` takes for a request segment: static over param over star. */
  ghost predicate Chosen(t: Trie, p: Path, seg: string, s: string)
  {
    && p + [s] in t
    && (|| (s == seg && !Wild(seg))
        || (Param(s) && !StaticChild(t, p, seg))
        || (Star(s) && !StaticChild(t, p, seg) && forall o :: Param(o) ==> p + [o] !in t))
  }

  /** `q` is where the lookup is after |q| segments of the request. */
  ghost predicate Greedy(t: Trie, req: seq<string>, q: Path)
  {
    && [] in t
    && |q| <= |req|
    && forall i :: 0 <= i < |q| ==> Chosen(t, q[..i], req[i], q[i])
  }

  /** The lookup never has two ways to go. */
  lemma {:induction false} GreedyUnique(t: Trie, req: seq<string>, q: Path, r: Path)
    requires WellFormed(t) && Greedy(t, req, q) && Greedy(t, req, r) && |q| <= |r|
    ensures r[..|q|] == q
  {
    if |q| > 0 {
      var n := |q| - 1;
      assert q[..n] + [q[n]] == q && r[..n] + [r[n]] == r[..|q|];
      forall i | 0 <= i < n ensures Chosen(t, q[..n][..i], req[i], q[..n][i]) {
        assert q[..n][..i] == q[..i];
      }
      GreedyUnique(t, req, q[..n], r);
      ChosenUnique(t, q[..n], req[n], q[n], r[n]);
    }
  }

  lemma ChosenUnique(t: Trie, p: Path, seg: string, s: string, u: string)
    requires WellFormed(t) && Chosen(t, p, seg, s) && Chosen(t, p, seg, u)
    ensures s == u
  {
    if Wild(s) && Wild(u) {
      OneWildChild(t, p, s, u);
    }
  }

  lemma OneWildChild(t: Trie, p: Path, s: string, u: string)
    requires WellFormed(t) && p + [s] in t && p + [u] in t && Wild(s) && Wild(u)
    ensures s == u
  {
    assert !Clash(t, p, s);
  }

  /** The node found exists, and the request matches its pattern position by position. */
  lemma GreedyMatches(t: Trie, req: seq<string>, q: Path)
    requires Greedy(t, req, q)
    ensures q in t && Matches(q, req[..|q|])
  {
    forall i | 0 <= i < |q| ensures MatchesSeg(q[i], req[i]) {
      assert Chosen(t, q[..i], req[i], q[i]);
    }
    if |q| > 0 {
      assert q[..|q| - 1] + [q[|q| - 1]] == q;
      assert Chosen(t, q[..|q| - 1], req[|q| - 1], q[|q| - 1]);
    }
  }

  /** A path of static segments that has a node is found under its own name, whatever other
      routes the tree holds. */
  lemma StaticFindsItself(t: Trie, p: Path)
    requires WellFormed(t) && p in t && forall i :: 0 <= i < |p| ==> !Wild(p[i])
    ensures Greedy(t, p, p)
    ensures forall q :: Greedy(t, p, q) && |q| == |p| ==> q == p
  {
    PrefixesAreNodes(t, p, 0);
    forall i | 0 <= i < |p| ensures Chosen(t, p[..i], p[i], p[i]) {
      PrefixesAreNodes(t, p, i + 1);
      assert p[..i] + [p[i]] == p[..i + 1];
    }
    assert Greedy(t, p, p);
    forall q | Greedy(t, p, q) && |q| == |p| ensures q == p {
      GreedyUnique(t, p, q, p);
    }
  }

  lemma {:induction false} PrefixesAreNodes(t: Trie, p: Path, n: nat)
    requires WellFormed(t) && p in t && n <= |p|
    ensures p[..n] in t
    decreases |p| - n
  {
    if n < |p| {
      PrefixesAreNodes(t, p, n + 1);
      assert p[..n] + [p[n]] == p[..n + 1];
    } else {
      assert p[..n] == p;
    }
  }

  /** The path parameters after the first `n` segments, under the names that `nameOf` gives to the
      segments of the pattern. */
  function ParamsTo(q: Path, req: seq<string>, n: nat, nameOf: string -> string): map<string, string>
    requires n <= |q| <= |req|
  {
    if n == 0 then map[] else
    var m := ParamsTo(q, req, n - 1, nameOf);
    if Param(q[n - 1]) then m[nameOf(q[n - 1]) := req[n - 1]] else m
  }

  predicate Names(s: string, nameOf: string -> string, name: string)
  {
    Param(s) && nameOf(s) == name
  }

  lemma {:induction false} LastNamed(q: Path, req: seq<string>, n: nat, nameOf: string -> string, name: string)
    requires n <= |q| <= |req|
    ensures name in ParamsTo(q, req, n, nameOf) <==> exists i :: 0 <= i < n && Names(q[i], nameOf, name)
    ensures forall i :: 0 <= i < n && Names(q[i], nameOf, name)
                        && (forall j :: i < j < n ==> !Names(q[j], nameOf, name)) ==>
      name in ParamsTo(q, req, n, nameOf) && ParamsTo(q, req, n, nameOf)[name] == req[i]
  {
    hide Param;
    if n > 0 {
      LastNamed(q, req, n - 1, nameOf, name);
      assert Names(q[n - 1], nameOf, name) || !Names(q[n - 1], nameOf, name);
    }
  }

  /** The name in a parameter segment. */
  function AfterColon(s: string): string
  {
    if |s| == 0 then "" else s[1..]
  }

  /** A parameter has the segment at the last place where the pattern names it. */
  lemma ParamsAreLast(q: Path, req: seq<string>, n: nat, name: string)
    requires n <= |q| <= |req|
    ensures var ps := ParamsTo(q, req, n, AfterColon);
      && (name in ps <==> exists i :: 0 <= i < n && q[i] == ":" + name)
      && (forall i :: 0 <= i < n && q[i] == ":" + name && (forall j :: i < j < n ==> q[j] != ":" + name) ==>
            name in ps && ps[name] == req[i])
  {
    hide ParamsTo;
    LastNamed(q, req, n, AfterColon, name);
    forall i | 0 <= i < n ensures Names(q[i], AfterColon, name) <==> q[i] == ":" + name {
      if Param(q[i]) {
        assert q[i] == ":" + q[i][1..];
      }
    }
  }

  lemma GreedyNext(t: Trie, req: seq<string>, q: Path, s: string)
    requires Greedy(t, req, q) && |q| < |req| && Chosen(t, q, req[|q|], s)
    ensures Greedy(t, req, q + [s])
  {
    hide Chosen;
    var r := q + [s];
    forall i | 0 <= i < |r| ensures Chosen(t, r[..i], req[i], r[i]) {
      assert r[..i] == q[..i];
    }
  }

  /** A lookup that gets stuck means that no node is found by going on from anywhere else. */
  lemma StuckIsLost(t: Trie, req: seq<string>, q: Path, r: Path)
    requires WellFormed(t) && Greedy(t, req, q) && |q| < |req|
    requires forall u :: !Chosen(t, q, req[|q|], u)
    ensures !(Greedy(t, req, r) && |r| == |req|)
  {
    hide WellFormed, Chosen;
    if Greedy(t, req, r) && |r| == |req| {
      assert Chosen(t, r[..|q|], req[|q|], r[|q|]);
      GreedyUnique(t, req, q, r);
    }
  }

  lemma ParamsNext(q: Path, s: string, req: seq<string>, nameOf: string -> string)
    requires |q| < |req|
    ensures ParamsTo(q + [s], req, |q| + 1, nameOf) ==
      var m := ParamsTo(q, req, |q|, nameOf);
      if Param(s) then m[nameOf(s) := req[|q|]] else m
  {
    ParamsPrefix(q, s, req, |q|, nameOf);
  }

  lemma {:induction false} ParamsPrefix(q: Path, s: string, req: seq<string>, n: nat, nameOf: string -> string)
    requires n <= |q| < |req|
    ensures ParamsTo(q + [s], req, n, nameOf) == ParamsTo(q, req, n, nameOf)
  {
    if n > 0 {
      ParamsPrefix(q, s, req, n - 1, nameOf);
    }
  }

  // ---------------------------------------------------------------- the middleware search

  ghost function ParamChild(t: Trie, p: Path): (r: Option<string>)
    ensures r.Some? ==> Param(r.value) && p + [r.value] in t
    ensures r.None? ==> forall o :: Param(o) ==> p + [o] !in t
  {
    if o :| Param(o) && p + [o] in t then Some(o) else None
  }

  /** The children of one node that match a segment: star, then param, then static. */
  ghost function Kids(t: Trie, p: Path, seg: string): (r: seq<Path>)
  {
    (if p + ["*"] in t then [p + ["*"]] else [])
    + (match ParamChild(t, p) case None => [] case Some(o) => [p + [o]])
    + (if StaticChild(t, p, seg) then [p + [seg]] else [])
  }

  /** The children of the first `n` nodes. */
  ghost function KidsTo(t: Trie, ps: seq<Path>, seg: string, n: nat): (r: seq<Path>)
    requires n <= |ps|
  {
    if n == 0 then [] else KidsTo(t, ps, seg, n - 1) + Kids(t, ps[n - 1], seg)
  }

  /** The nodes of the search at depth `d`. */
  ghost function Level(t: Trie, req: seq<string>, d: nat): (r: seq<Path>)
    requires d <= |req|
  {
    if d == 0 then [[]] else KidsTo(t, Level(t, req, d - 1), req[d - 1], |Level(t, req, d - 1)|)
  }

  /** All nodes of the search down to depth `d`, depth by depth. */
  ghost function LevelsTo(t: Trie, req: seq<string>, d: nat): (r: seq<Path>)
    requires d <= |req|
  {
    if d == 0 then [[]] else LevelsTo(t, req, d - 1) + Level(t, req, d)
  }

  /** The middlewares of the first `n` nodes of a list, in order. */
  function MdlsTo(t: Trie, ps: seq<Path>, n: nat): (r: seq<Middleware>)
    requires n <= |ps|
  {
    if n == 0 then [] else MdlsTo(t, ps, n - 1) + Lookup(t, ps[n - 1]).mdls
  }

  ghost predicate Distinct(ps: seq<Path>)
  {
    forall i, j :: 0 <= i < j < |ps| ==> ps[i] != ps[j]
  }

  lemma KidsExact(t: Trie, p: Path, seg: string)
    requires WellFormed(t)
    ensures forall s :: p + [s] in Kids(t, p, seg) <==> p + [s] in t && MatchesSeg(s, seg)
    ensures forall q :: q in Kids(t, p, seg) ==> |q| == |p| + 1 && q[..|p|] == p && q in t
    ensures Distinct(Kids(t, p, seg)) && |Kids(t, p, seg)| <= 2
  {
    var ks := Kids(t, p, seg);
    forall s ensures p + [s] in ks <==> p + [s] in t && MatchesSeg(s, seg) {
      LastSegment(p, s);
      if p + [s] in t && Param(s) {
        OneWildChild(t, p, s, ParamChild(t, p).value);
      }
      if p + [s] in ks {
        LastSegment(p, "*");
        LastSegment(p, seg);
        if ParamChild(t, p).Some? {
          LastSegment(p, ParamChild(t, p).value);
        }
      }
    }
    NoParamBesideStar(t, p);
  }

  lemma NoParamBesideStar(t: Trie, p: Path)
    requires WellFormed(t)
    ensures p + ["*"] in t ==> ParamChild(t, p) == None
  {
    hide WellFormed;
    forall o | Param(o) && p + ["*"] in t ensures p + [o] !in t {
      StarExcludes(t, p, o);
    }
  }

  lemma StarExcludes(t: Trie, p: Path, o: string)
    requires WellFormed(t) && p + ["*"] in t && Param(o)
    ensures p + [o] !in t
  {
    assert Wild("*") && o != "*" && !Clash(t, p, "*");
  }

  lemma LastSegment(p: Path, s: string)
    ensures (p + [s])[|p|] == s && (p + [s])[..|p|] == p
  {
  }

  /** The children of a list of nodes of one depth. */
  lemma {:induction false} KidsToExact(t: Trie, ps: seq<Path>, seg: string, n: nat, d: nat)
    requires WellFormed(t) && n <= |ps|
    requires forall i :: 0 <= i < |ps| ==> |ps[i]| == d
    ensures forall q :: q in KidsTo(t, ps, seg, n) <==>
      q in t && |q| == d + 1 && MatchesSeg(q[d], seg) && q[..d] in ps[..n]
    ensures |KidsTo(t, ps, seg, n)| <= 2 * n
  {
    hide WellFormed, MatchesSeg, Kids;
    if n > 0 {
      KidsToExact(t, ps, seg, n - 1, d);
      var p := ps[n - 1];
      KidsExact(t, p, seg);
      assert ps[..n] == ps[..n - 1] + [p];
      forall q ensures q in Kids(t, p, seg) <==> q in t && |q| == d + 1 && MatchesSeg(q[d], seg) && q[..d] == p {
        if |q| == d + 1 {
          assert q[..d] + [q[d]] == q;
        }
      }
    }
  }

  lemma {:induction false} KidsToDistinct(t: Trie, ps: seq<Path>, seg: string, n: nat, d: nat)
    requires WellFormed(t) && n <= |ps| && Distinct(ps)
    requires forall i :: 0 <= i < |ps| ==> |ps[i]| == d
    ensures Distinct(KidsTo(t, ps, seg, n))
  {
    hide WellFormed, MatchesSeg, Kids;
    if n > 0 {
      KidsToDistinct(t, ps, seg, n - 1, d);
      KidsToExact(t, ps, seg, n - 1, d);
      KidsExact(t, ps[n - 1], seg);
      assert ps[n - 1] !in ps[..n - 1];
      DistinctAppend(KidsTo(t, ps, seg, n - 1), Kids(t, ps[n - 1], seg));
    }
  }

  lemma DistinctAppend(a: seq<Path>, b: seq<Path>)
    requires Distinct(a) && Distinct(b) && forall q :: q in b ==> q !in a
    ensures Distinct(a + b)
  {
    forall i, j | 0 <= i < j < |a + b| ensures (a + b)[i] != (a + b)[j] {
      if i < |a| <= j {
        assert (a + b)[j] == b[j - |a|] && b[j - |a|] in b && a[i] in a;
      }
    }
  }

  /** `findMdls` visits at depth `d` precisely the nodes whose pattern matches the first `d`
      segments of the request, each of them once. */
  lemma {:induction false} LevelExact(t: Trie, req: seq<string>, d: nat)
    requires WellFormed(t) && [] in t && d <= |req|
    ensures forall q :: q in Level(t, req, d) <==> q in t && Matches(q, req[..d])
    ensures Distinct(Level(t, req, d))
  {
    hide WellFormed, MatchesSeg, KidsTo;
    if d == 0 {
      forall q: Path ensures q in Level(t, req, 0) <==> q in t && Matches(q, req[..0]) {
      }
    } else {
      LevelExact(t, req, d - 1);
      var ps := Level(t, req, d - 1);
      assert ps[..|ps|] == ps;
      forall i | 0 <= i < |ps| ensures |ps[i]| == d - 1 {
        assert ps[i] in ps;
      }
      KidsToExact(t, ps, req[d - 1], |ps|, d - 1);
      KidsToDistinct(t, ps, req[d - 1], |ps|, d - 1);
      forall q: Path ensures q in Level(t, req, d) <==> q in t && Matches(q, req[..d]) {
        if |q| == d {
          MatchesSplit(q, req, d);
          if q in t {
            ParentIsNode(t, q);
          }
        }
      }
    }
  }

  lemma MatchesSplit(q: Path, req: seq<string>, d: nat)
    requires 0 < d == |q| && d <= |req|
    ensures Matches(q, req[..d]) <==> Matches(q[..d - 1], req[..d - 1]) && MatchesSeg(q[d - 1], req[d - 1])
  {
    hide MatchesSeg;
    if Matches(q[..d - 1], req[..d - 1]) && MatchesSeg(q[d - 1], req[d - 1]) {
      forall i | 0 <= i < d ensures MatchesSeg(q[i], req[..d][i]) {
        if i < d - 1 {
          assert q[..d - 1][i] == q[i] && req[..d - 1][i] == req[i];
        }
      }
    }
    if Matches(q, req[..d]) {
      var r, u := q[..d - 1], req[..d - 1];
      forall i | 0 <= i < |r| ensures MatchesSeg(r[i], u[i]) {
        assert MatchesSeg(q[i], req[..d][i]);
      }
      assert MatchesSeg(q[d - 1], req[..d][d - 1]);
    }
  }

  lemma ParentIsNode(t: Trie, q: Path)
    requires WellFormed(t) && q in t && |q| > 0
    ensures q[..|q| - 1] in t
  {
    assert q[..|q| - 1] + [q[|q| - 1]] == q;
  }

  function Pow2(d: nat): nat
  {
    if d == 0 then 1 else 2 * Pow2(d - 1)
  }

  /** Because star and param children exclude each other, the frontier at most doubles. */
  lemma {:induction false} FrontierBound(t: Trie, req: seq<string>, d: nat)
    requires WellFormed(t) && [] in t && d <= |req|
    ensures |Level(t, req, d)| <= Pow2(d)
  {
    hide WellFormed, MatchesSeg, KidsTo;
    if d > 0 {
      FrontierBound(t, req, d - 1);
      LevelExact(t, req, d - 1);
      var ps := Level(t, req, d - 1);
      forall i | 0 <= i < |ps| ensures |ps[i]| == d - 1 {
        assert ps[i] in ps;
      }
      KidsToExact(t, ps, req[d - 1], |ps|, d - 1);
    }
  }

  /** All nodes the search visits: precisely those whose pattern matches some prefix of the
      request, each of them once. */
  lemma {:induction false} LevelsExact(t: Trie, req: seq<string>, d: nat)
    requires WellFormed(t) && [] in t && d <= |req|
    ensures forall q :: q in LevelsTo(t, req, d) <==> q in t && |q| <= d && Matches(q, req[..|q|])
    ensures Distinct(LevelsTo(t, req, d))
  {
    hide WellFormed, MatchesSeg, Level;
    if d == 0 {
      forall q: Path ensures q in LevelsTo(t, req, 0) <==> q in t && |q| <= 0 && Matches(q, req[..|q|]) {
      }
    } else {
      LevelsExact(t, req, d - 1);
      LevelExact(t, req, d);
      DistinctAppend(LevelsTo(t, req, d - 1), Level(t, req, d));
    }
  }

  /** Whenever the lookup finds a node, the search has it among the nodes of its last level. */
  lemma FoundNodeIsVisited(t: Trie, req: seq<string>, q: Path)
    requires WellFormed(t) && Greedy(t, req, q) && |q| == |req|
    ensures q in Level(t, req, |req|)
  {
    hide WellFormed, Level;
    GreedyMatches(t, req, q);
    LevelExact(t, req, |req|);
    assert req[..|q|] == req[..|req|];
  }

  /** Once a level is empty, so are the ones below it. */
  lemma {:induction false} EmptyStays(t: Trie, req: seq<string>, d: nat, e: nat)
    requires d <= e <= |req| && Level(t, req, d) == []
    ensures Level(t, req, e) == [] && LevelsTo(t, req, e) == LevelsTo(t, req, d)
    decreases e
  {
    if d < e {
      EmptyStays(t, req, d, e - 1);
    }
  }

  /** What `findMdls` returns for a request. */
  ghost function SearchMdls(t: Trie, req: seq<string>): (r: seq<Middleware>)
  {
    var ps := LevelsTo(t, req, |req|);
    MdlsTo(t, ps, |ps|)
  }

  // ---------------------------------------------------------------- what the search returns

  /** How many middlewares the first `n` nodes of a list have together. */
  function MdlsBefore(t: Trie, ps: seq<Path>, n: nat): (k: nat)
    requires n <= |ps|
  {
    if n == 0 then 0 else MdlsBefore(t, ps, n - 1) + |Lookup(t, ps[n - 1]).mdls|
  }

  /** The `i`th block of `r`, after those of the nodes before it, is the list of node `ps[i]`. */
  ghost predicate BlockAt(t: Trie, ps: seq<Path>, r: seq<Middleware>, i: nat)
    requires i < |ps|
  {
    var k, ms := MdlsBefore(t, ps, i), Lookup(t, ps[i]).mdls;
    k + |ms| <= |r| && r[k..k + |ms|] == ms
  }

  /** `r` is cut into one block for each of the nodes `ps`, in their order. */
  ghost predicate Blocks(t: Trie, ps: seq<Path>, r: seq<Middleware>)
  {
    |r| == MdlsBefore(t, ps, |ps|) && forall i :: 0 <= i < |ps| ==> BlockAt(t, ps, r, i)
  }

  lemma {:induction false} MdlsLength(t: Trie, ps: seq<Path>, n: nat)
    requires n <= |ps|
    ensures |MdlsTo(t, ps, n)| == MdlsBefore(t, ps, n)
  {
    if n > 0 {
      MdlsLength(t, ps, n - 1);
    }
  }

  lemma {:induction false} MdlsBlock(t: Trie, ps: seq<Path>, n: nat, i: nat)
    requires i < n <= |ps|
    ensures BlockAt(t, ps, MdlsTo(t, ps, n), i)
  {
    hide Lookup;
    var a, ms := MdlsTo(t, ps, n - 1), Lookup(t, ps[n - 1]).mdls;
    MdlsLength(t, ps, n - 1);
    if i < n - 1 {
      MdlsBlock(t, ps, n - 1, i);
      var k, l := MdlsBefore(t, ps, i), |Lookup(t, ps[i]).mdls|;
      assert (a + ms)[k..k + l] == a[k..k + l];
    }
  }

  /** The order in which nodes are visited: depth by depth; the children of one node after those of
      the nodes visited before it; and under one node its star or parameter child before its
      static one. */
  ghost predicate VisitedBefore(ps: seq<Path>, i: nat, j: nat)
    requires i < j < |ps|
  {
    |ps[i]| < |ps[j]| || (|ps[i]| == |ps[j]| > 0 && SameDepthBefore(ps, ps[i], ps[j]))
  }

  ghost predicate SameDepthBefore(ps: seq<Path>, p: Path, q: Path)
    requires |p| == |q| > 0
  {
    var n := |p| - 1;
    || (p[..n] == q[..n] && Wild(p[n]) && !Wild(q[n]))
    || exists k, l :: 0 <= k < l < |ps| && ps[k] == p[..n] && ps[l] == q[..n]
  }

  lemma KidsOrder(t: Trie, p: Path, seg: string, i: nat, j: nat)
    requires WellFormed(t) && i < j < |Kids(t, p, seg)|
    ensures var ks := Kids(t, p, seg); var n := |p|;
      |ks[i]| == |ks[j]| == n + 1 && ks[i][..n] == p == ks[j][..n] && Wild(ks[i][n]) && !Wild(ks[j][n])
  {
    NoParamBesideStar(t, p);
  }

  lemma KidsToParents(t: Trie, ps: seq<Path>, seg: string, n: nat, d: nat)
    requires WellFormed(t) && n <= |ps| && forall k :: 0 <= k < |ps| ==> |ps[k]| == d
    ensures forall q :: q in KidsTo(t, ps, seg, n) ==> |q| == d + 1 && q[..d] in ps[..n]
  {
    hide WellFormed, MatchesSeg, KidsTo;
    KidsToExact(t, ps, seg, n, d);
  }

  lemma KidsParent(t: Trie, p: Path, seg: string)
    requires WellFormed(t)
    ensures forall q :: q in Kids(t, p, seg) ==> |q| == |p| + 1 && q[..|p|] == p
  {
    hide WellFormed, MatchesSeg, Kids;
    KidsExact(t, p, seg);
  }

  /** The children of earlier nodes come before those of later ones. */
  lemma {:induction false} KidsToOrder(t: Trie, ps: seq<Path>, seg: string, n: nat, d: nat, i: nat, j: nat)
    requires WellFormed(t) && n <= |ps| && forall k :: 0 <= k < |ps| ==> |ps[k]| == d
    requires i < j < |KidsTo(t, ps, seg, n)|
    ensures var ks := KidsTo(t, ps, seg, n);
      |ks[i]| == |ks[j]| == d + 1 && SameDepthBefore(ps, ks[i], ks[j])
  {
    hide WellFormed, MatchesSeg, Kids, SameDepthBefore;
    var a, b := KidsTo(t, ps, seg, n - 1), Kids(t, ps[n - 1], seg);
    if j < |a| {
      KidsToOrder(t, ps, seg, n - 1, d, i, j);
    } else if i >= |a| {
      KidsOrder(t, ps[n - 1], seg, i - |a|, j - |a|);
      SameParent(ps, b[i - |a|], b[j - |a|], d);
    } else {
      KidsToParents(t, ps, seg, n - 1, d);
      KidsParent(t, ps[n - 1], seg);
      EarlierParent(ps, a, b, n - 1, d, i, j - |a|);
    }
  }

  lemma SameParent(ps: seq<Path>, p: Path, q: Path, d: nat)
    requires |p| == |q| == d + 1 && p[..d] == q[..d] && Wild(p[d]) && !Wild(q[d])
    ensures SameDepthBefore(ps, p, q)
  {
  }

  lemma EarlierParent(ps: seq<Path>, a: seq<Path>, b: seq<Path>, n: nat, d: nat, i: nat, j: nat)
    requires n < |ps| && i < |a| && j < |b|
    requires forall q :: q in a ==> |q| == d + 1 && q[..d] in ps[..n]
    requires forall q :: q in b ==> |q| == d + 1 && q[..d] == ps[n]
    ensures |a[i]| == |b[j]| == d + 1 && SameDepthBefore(ps, a[i], b[j])
  {
    assert a[i] in a && b[j] in b;
    var k :| 0 <= k < n && ps[..n][k] == a[i][..d];
    assert ps[k] == a[i][..d] && ps[n] == b[j][..d];
  }

  lemma SameDepthAppend(ps: seq<Path>, a: seq<Path>, c: seq<Path>, p: Path, q: Path)
    requires |p| == |q| > 0 && SameDepthBefore(ps, p, q)
    ensures SameDepthBefore(a + ps + c, p, q)
  {
    var n, v := |p| - 1, a + ps + c;
    if !(p[..n] == q[..n] && Wild(p[n]) && !Wild(q[n])) {
      var k, l :| 0 <= k < l < |ps| && ps[k] == p[..n] && ps[l] == q[..n];
      assert v[|a| + k] == p[..n] && v[|a| + l] == q[..n];
    }
  }

  /** Where the levels stand in the list of all of them. */
  lemma {:induction false} LevelInside(t: Trie, req: seq<string>, d: nat, e: nat) returns (a: seq<Path>, c: seq<Path>)
    requires e <= d <= |req|
    ensures LevelsTo(t, req, d) == a + Level(t, req, e) + c
    decreases d
  {
    hide Level;
    if e == d {
      a, c := if d == 0 then [] else LevelsTo(t, req, d - 1), [];
      ZeroLevel(t, req);
    } else {
      a, c := LevelInside(t, req, d - 1, e);
      assert a + Level(t, req, e) + c + Level(t, req, d) == a + Level(t, req, e) + (c + Level(t, req, d));
      c := c + Level(t, req, d);
    }
  }

  lemma ZeroLevel(t: Trie, req: seq<string>)
    ensures Level(t, req, 0) == [[]]
  {
  }

  lemma LevelDepth(t: Trie, req: seq<string>, d: nat, i: nat)
    requires WellFormed(t) && [] in t && d <= |req| && i < |Level(t, req, d)|
    ensures |Level(t, req, d)[i]| == d
  {
    hide WellFormed, Level;
    LevelExact(t, req, d);
    assert Level(t, req, d)[i] in Level(t, req, d);
  }

  lemma {:induction false} VisitOrder(t: Trie, req: seq<string>, d: nat, i: nat, j: nat)
    requires WellFormed(t) && [] in t && d <= |req|
    requires i < j < |LevelsTo(t, req, d)|
    ensures VisitedBefore(LevelsTo(t, req, d), i, j)
  {
    hide WellFormed, Level, SameDepthBefore;
    ZeroLevel(t, req);
    var a, b := LevelsTo(t, req, d - 1), Level(t, req, d);
    if j < |a| {
      VisitOrder(t, req, d - 1, i, j);
      if |a[i]| == |a[j]| {
        SameDepthAppend(a, [], b, a[i], a[j]);
        assert [] + a + b == a + b;
      }
    } else if i >= |a| {
      LevelOrder(t, req, d, i - |a|, j - |a|);
      SameDepthAppend(a, [], b, b[i - |a|], b[j - |a|]);
      assert [] + a + b == a + b;
    } else {
      LevelDepth(t, req, d, j - |a|);
      LevelsShort(t, req, d - 1, i);
    }
  }

  lemma LevelOrder(t: Trie, req: seq<string>, d: nat, i: nat, j: nat)
    requires WellFormed(t) && [] in t && 0 < d <= |req| && i < j < |Level(t, req, d)|
    ensures var b := Level(t, req, d);
      |b[i]| == |b[j]| == d && SameDepthBefore(LevelsTo(t, req, d - 1), b[i], b[j])
  {
    hide WellFormed, KidsTo, SameDepthBefore;
    var ps := Level(t, req, d - 1);
    forall k | 0 <= k < |ps| ensures |ps[k]| == d - 1 {
      LevelDepth(t, req, d - 1, k);
    }
    KidsToOrder(t, ps, req[d - 1], |ps|, d - 1, i, j);
    var a, c := LevelInside(t, req, d - 1, d - 1);
    SameDepthAppend(ps, a, c, Level(t, req, d)[i], Level(t, req, d)[j]);
  }

  lemma {:induction false} LevelsShort(t: Trie, req: seq<string>, d: nat, i: nat)
    requires WellFormed(t) && [] in t && d <= |req| && i < |LevelsTo(t, req, d)|
    ensures |LevelsTo(t, req, d)[i]| <= d
  {
    hide WellFormed, Level;
    if d > 0 {
      var a := LevelsTo(t, req, d - 1);
      if i < |a| {
        LevelsShort(t, req, d - 1, i);
      } else {
        LevelDepth(t, req, d, i - |a|);
      }
    }
  }

  /** What a search returns. The nodes visited are those whose pattern matches some prefix of the
      request, each once, in the order of `VisitedBefore`; and the result is made up of the lists
      of just these nodes, one after another. */
  lemma SearchExact(t: Trie, req: seq<string>) returns (visited: seq<Path>)
    requires WellFormed(t) && [] in t
    ensures forall q :: q in visited <==> q in t && |q| <= |req| && Matches(q, req[..|q|])
    ensures forall i, j :: 0 <= i < j < |visited| ==> visited[i] != visited[j] && VisitedBefore(visited, i, j)
    ensures Blocks(t, visited, SearchMdls(t, req))
  {
    hide WellFormed, VisitedBefore, MdlsTo, MdlsBefore, LevelsTo, Matches, BlockAt;
    visited := LevelsTo(t, req, |req|);
    LevelsExact(t, req, |req|);
    MdlsLength(t, visited, |visited|);
    forall i | 0 <= i < |visited| ensures BlockAt(t, visited, SearchMdls(t, req), i) {
      MdlsBlock(t, visited, |visited|, i);
    }
    forall i, j | 0 <= i < j < |visited| ensures VisitedBefore(visited, i, j) {
      VisitOrder(t, req, |req|, i, j);
    }
  }

  /** The pattern of the node found, spelled out: each of its segments is a star, begins with a colon, or
      is the segment of the request at that place. */
  lemma FoundSegments(t: Trie, req: seq<string>, q: Path, i: nat)
    requires Greedy(t, req, q) && i < |q|
    ensures q[i] == "*" || ":" <= q[i] || q[i] == req[i]
  {
    assert Chosen(t, q[..i], req[i], q[i]);
  }

  /** A middleware at the root and one at a node below it, neither with a handler: a request for the
      node is given both, that of the root first. */
  lemma RootThenNode(a: Middleware, b: Middleware)
    ensures var calls := [Registration("/", [], None, [a]), Registration("/user", ["user"], None, [b])];
      SearchMdls(RunTo(calls, 2), ["user"]) == [a, b]
  {
    var calls := [Registration("/", [], None, [a]), Registration("/user", ["user"], None, [b])];
    var t := RunTo(calls, 2);
    RootThenNodeTree(calls, a, b);
    OnlyUserBelow(t);
    UserLevels(t);
    assert MdlsTo(t, [[], ["user"]], 1) == [a];
  }

  lemma RootThenNodeTree(calls: seq<Registration>, a: Middleware, b: Middleware)
    requires calls == [Registration("/", [], None, [a]), Registration("/user", ["user"], None, [b])]
    ensures var t := RunTo(calls, 2);
      && (forall p :: p in t <==> p == [] || p == ["user"])
      && Lookup(t, []).mdls == [a] && Lookup(t, ["user"]).mdls == [b]
  {
    hide AddRoute, RunTo, Register, Lookup;
    EmptyRun(calls, []);
    EmptyRun(calls, ["user"]);
    FirstAccepted(calls);
    OneCall(calls, 0, []);
    OneCall(calls, 0, ["user"]);
    UserAccepted(calls, 1);
    OneCall(calls, 1, []);
    OneCall(calls, 1, ["user"]);
    RootAndUser(calls);
  }

  lemma FirstAccepted(calls: seq<Registration>)
    requires |calls| > 0 && calls[0].segs == []
    ensures Accepted(calls, 0)
  {
    hide AddRoute;
    AddRouteExact(NO_TREE, calls[0]);
  }

  lemma RootAndUser(calls: seq<Registration>)
    requires |calls| == 2 && calls[0].segs == [] && calls[1].segs == ["user"]
    requires Accepted(calls, 0) && Accepted(calls, 1)
    ensures forall p :: p in RunTo(calls, 2) <==> p == [] || p == ["user"]
  {
    hide RunTo, AddRoute, Accepted, WellFormed, Lookup;
    forall i | 0 <= i < 2 ensures Accepted(calls, i) {
    }
    NodesArePrefixes(calls);
    forall p: Path ensures IsPrefix(p, []) <==> p == [] {
    }
    forall p: Path ensures IsPrefix(p, ["user"]) <==> p == [] || p == ["user"] {
      if |p| == 1 {
        assert ["user"][..1] == ["user"];
      }
    }
  }

  lemma OnlyUserBelow(t: Trie)
    requires forall p :: p in t <==> p == [] || p == ["user"]
    ensures Kids(t, [], "user") == [["user"]]
  {
    assert "user"[0] != ':' && "user"[0] != '*';
    forall o: string | [o] in t ensures o == "user" {
      assert [o][0] == "user";
    }
    assert [] + ["user"] == ["user"];
    forall o: string ensures [] + [o] == [o] {
    }
    assert ParamChild(t, []) == None;
  }

  lemma UserLevels(t: Trie)
    requires Kids(t, [], "user") == [["user"]]
    ensures LevelsTo(t, ["user"], 1) == [[], ["user"]]
  {
    hide Kids;
    assert Level(t, ["user"], 0) == [[]];
    assert KidsTo(t, [[]], "user", 1) == KidsTo(t, [[]], "user", 0) + Kids(t, [], "user");
    assert Level(t, ["user"], 1) == [["user"]];
    assert LevelsTo(t, ["user"], 0) == [[]];
  }
}
