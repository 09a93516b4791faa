/** The earlier router, web/homework1/route.go: parameters may be regular expressions, a star node
    takes what is left of a request, and there are no middlewares. The tree of one HTTP method.
    Its conflict rules, at most one star, parameter or regular-expression child, come to those of
    `RouteTrie`, whose theorems are used. */
module RouteV1 {
  import opened Wrappers
  import opened RouteTrie
  import opened RoutePath
  import RouteMatch

  /** The regular-expression engine, left open. */
  datatype Engine = Engine(compiles: string -> bool, matches: (string, string) -> bool)

  // ---------------------------------------------------------------- segments

  /** A parameter segment that ends in a parenthesised expression: `:name(expr)`. */
  predicate Regex(s: string)
  {
    Param(s) && s[|s| - 1] == ')' && '(' in s
  }

  function IndexOf(s: string, c: char): (i: nat)
    requires c in s
    ensures i < |s| && s[i] == c && c !in s[..i]
  {
    if s[0] == c then 0 else
    var i := IndexOf(s[1..], c);
    assert s[..i + 1] == [s[0]] + s[1..][..i];
    i + 1
  }

  /** `matchAndParseRegExp` of such a segment: the name before the first parenthesis and the
      expression between it and the last character. */
  function ParseRegex(s: string): (r: (string, string))
    requires Regex(s)
    ensures s == ":" + r.0 + "(" + r.1 + ")" && '(' !in r.0
  {
    var inner := s[1..|s| - 1];
    assert '(' in inner by {
      var k := IndexOf(s, '(');
      assert inner[k - 1] == '(';
    }
    var k := IndexOf(inner, '(');
    (inner[..k], inner[k + 1..])
  }

  /** A segment whose expression does not compile panics, as an empty one does. */
  predicate Bad(e: Engine, s: string)
  {
    Regex(s) && !e.compiles(ParseRegex(s).1)
  }

  /** The name in a parameter segment, with an expression or without. */
  function NameOf(s: string): string
  {
    if Regex(s) then ParseRegex(s).0 else RouteMatch.AfterColon(s)
  }

  predicate MatchesSeg(e: Engine, pattern: string, seg: string)
  {
    if Star(pattern) then true
    else if Regex(pattern) then e.matches(ParseRegex(pattern).1, seg)
    else Param(pattern) || pattern == seg
  }

  // ---------------------------------------------------------------- registration

  /** The segments with those that panic made empty. */
  function Checked(e: Engine, segs: Path): (r: Path)
    ensures |r| == |segs|
  {
    seq(|segs|, i requires 0 <= i < |segs| => if Bad(e, segs[i]) then "" else segs[i])
  }

  /** `addRoute` on a path that has the right format. A star node's handler may be replaced. */
  ghost function AddRoute(e: Engine, t: Trie, segs: Path, handler: Option<Handler>): (r: (Trie, bool))
  {
    var (u, ok) := Walk(WithRoot(t), Checked(e, segs), 0);
    if !ok || segs !in u || (u[segs].handler != None && (segs == [] || !Star(segs[|segs| - 1]))) then (u, false)
    else (u[segs := u[segs].(handler := handler)], true)
  }

  /** When a path can be added. */
  ghost predicate CanAdd(e: Engine, t: Trie, segs: Path)
  {
    && (forall i :: 0 <= i < |segs| ==> segs[i] != "" && !Bad(e, segs[i]))
    && (forall i :: 0 <= i < |segs| ==> !Clash(t, segs[..i], segs[i]))
    && (segs in t && t[segs].handler != None ==> segs != [] && Star(segs[|segs| - 1]))
  }

  /** A call succeeds iff the path can be added. Then the tree gains the prefixes of the path and
      the path's own node takes the handler. If it panics, it may gain some prefixes only. */
  lemma AddRouteExact(e: Engine, t: Trie, segs: Path, handler: Option<Handler>)
    ensures var (u, ok) := AddRoute(e, t, segs, handler);
      && (ok <==> CanAdd(e, t, segs))
      && (forall p :: p in u ==> p in t || IsPrefix(p, segs))
      && (forall p :: p in t || (ok && IsPrefix(p, segs)) ==> p in u)
      && (forall p :: p in u ==>
            u[p] == if ok && p == segs then Lookup(t, p).(handler := handler) else Lookup(t, p))
  {
    hide Clash, Walk, WithNodes, WithRoot, Bad, Checked;
    var cs := Checked(e, segs);
    CheckedIs(e, segs);
    var n := Reached(t, cs, 0);
    WalkFromRoot(t, cs);
    WithNodesIs(t, cs, n);
    Unblocked(e, t, segs, n);
    forall p | |p| <= n && IsPrefix(p, cs) ensures IsPrefix(p, segs) {
      assert cs[..n][..|p|] == segs[..n][..|p|];
    }
    if n < |cs| {
      assert Blocked(t, cs, n);
    } else {
      assert cs == segs;
      forall i | 0 <= i < |segs| ensures segs[i] != "" && !Bad(e, segs[i]) && !Clash(t, segs[..i], segs[i]) {
        assert !Blocked(t, cs, i);
      }
      PrefixOfItself(segs);
    }
  }

  /** Up to the segment that panics the checked segments are the given ones. */
  lemma Unblocked(e: Engine, t: Trie, segs: Path, n: nat)
    requires n <= |segs| && forall i :: 0 <= i < n ==> !Blocked(t, Checked(e, segs), i)
    ensures Checked(e, segs)[..n] == segs[..n]
  {
    hide Clash, Bad, Checked;
    CheckedIs(e, segs);
    forall i | 0 <= i < n ensures Checked(e, segs)[i] == segs[i] {
      assert !Blocked(t, Checked(e, segs), i);
    }
  }

  lemma CheckedIs(e: Engine, segs: Path)
    ensures forall i :: 0 <= i < |segs| ==> Checked(e, segs)[i] == if Bad(e, segs[i]) then "" else segs[i]
  {
  }

  lemma ClashSees(t: Trie, u: Trie, p: Path, s: string)
    requires forall o :: Wild(o) && p + [o] in u ==> p + [o] in t || o == s
    ensures Clash(u, p, s) ==> Clash(t, p, s)
  {
  }

  /** A path that has a handler cannot be registered again, unless it ends in a star: then it
      always can. */
  lemma SecondRegistration(e: Engine, t: Trie, segs: Path, first: Option<Handler>, second: Option<Handler>)
    requires AddRoute(e, t, segs, first).1 && first != None
    ensures AddRoute(e, AddRoute(e, t, segs, first).0, segs, second).1 <==>
      segs != [] && Star(segs[|segs| - 1])
  {
    hide AddRoute, Clash, Bad, Wild;
    var u := AddRoute(e, t, segs, first).0;
    AddRouteExact(e, t, segs, first);
    AddRouteExact(e, u, segs, second);
    PrefixOfItself(segs);
    forall i | 0 <= i < |segs| ensures !Clash(u, segs[..i], segs[i]) {
      forall o | segs[..i] + [o] in u ensures segs[..i] + [o] in t || o == segs[i] {
        var q := segs[..i] + [o];
        assert q[i] == o && |q| == i + 1;
      }
      ClashSees(t, u, segs[..i], segs[i]);
    }
  }

  /** Every call keeps the tree well formed, whether or not it panics on the way. */
  lemma AddRouteKeepsWellFormed(e: Engine, t: Trie, segs: Path, handler: Option<Handler>)
    requires WellFormed(t)
    ensures WellFormed(AddRoute(e, t, segs, handler).0)
  {
    hide WellFormed, WithNodes, WithRoot, Walk, Clash;
    var cs := Checked(e, segs);
    WalkFromRoot(t, cs);
    WithNodesKeepsWellFormed(t, cs, Reached(t, cs, 0));
    var (u, ok) := Walk(WithRoot(t), cs, 0);
    if AddRoute(e, t, segs, handler).1 {
      SameNodesWellFormed(u, AddRoute(e, t, segs, handler).0);
    }
  }

  /** No call takes a node away, and a successful one has its own node. */
  lemma AddRouteKeepsNodes(e: Engine, t: Trie, segs: Path, handler: Option<Handler>)
    ensures forall p :: p in t ==> p in AddRoute(e, t, segs, handler).0
    ensures AddRoute(e, t, segs, handler).1 ==> segs in AddRoute(e, t, segs, handler).0
  {
    hide WithNodes, WithRoot, Walk, Clash;
    var cs := Checked(e, segs);
    WalkFromRoot(t, cs);
    WithNodesIs(t, cs, Reached(t, cs, 0));
  }

  datatype Call = Call(segs: Path, handler: Option<Handler>)

  ghost function RunTo(e: Engine, calls: seq<Call>, n: nat): (t: Trie)
    requires n <= |calls|
  {
    if n == 0 then NO_TREE else AddRoute(e, RunTo(e, calls, n - 1), calls[n - 1].segs, calls[n - 1].handler).0
  }

  // ---------------------------------------------------------------- lookup

  /** The child that `childOf` takes: static, or the one other child if it matches. */
  ghost predicate Chosen(e: Engine, t: Trie, p: Path, seg: string, s: string)
  {
    && p + [s] in t
    && ((s == seg && !Wild(seg)) || (Wild(s) && !RouteMatch.StaticChild(t, p, seg)))
    && MatchesSeg(e, s, seg)
  }

  /** `q` is where the lookup is after |q| segments of the request. */
  ghost predicate Greedy(e: Engine, t: Trie, req: seq<string>, q: Path)
  {
    && [] in t
    && |q| <= |req|
    && forall i :: 0 <= i < |q| ==> Chosen(e, t, q[..i], req[i], q[i])
  }

  /** The lookup ends at `q`: at the end of the request, or stuck at a star node. */
  ghost predicate Found(e: Engine, t: Trie, req: seq<string>, q: Path)
  {
    && Greedy(e, t, req, q)
    && (|q| == |req| ||
        (|q| > 0 && Star(q[|q| - 1]) && forall u :: !Chosen(e, t, q, req[|q|], u)))
  }

  /** Soundness with overflow: the node found exists, its pattern matches the segments of the
      request it covers, and only a star node leaves segments over. */
  lemma FoundIsSound(e: Engine, t: Trie, req: seq<string>, q: Path)
    requires Found(e, t, req, q)
    ensures q in t && |q| <= |req|
    ensures forall i :: 0 <= i < |q| ==> MatchesSeg(e, q[i], req[i])
    ensures |q| < |req| ==> |q| > 0 && Star(q[|q| - 1])
  {
    forall i | 0 <= i < |q| ensures MatchesSeg(e, q[i], req[i]) {
      assert Chosen(e, t, q[..i], req[i], q[i]);
    }
    if |q| > 0 {
      assert q[..|q| - 1] + [q[|q| - 1]] == q;
      assert Chosen(e, t, q[..|q| - 1], req[|q| - 1], q[|q| - 1]);
    }
  }

  lemma ChosenUnique(e: Engine, t: Trie, p: Path, seg: string, s: string, u: string)
    requires WellFormed(t) && Chosen(e, t, p, seg, s) && Chosen(e, t, p, seg, u)
    ensures s == u
  {
    if Wild(s) && Wild(u) {
      RouteMatch.OneWildChild(t, p, s, u);
    }
  }

  lemma {:induction false} GreedyUnique(e: Engine, t: Trie, req: seq<string>, q: Path, r: Path)
    requires WellFormed(t) && Greedy(e, t, req, q) && Greedy(e, t, req, r) && |q| <= |r|
    ensures r[..|q|] == q
  {
    hide WellFormed, Chosen;
    if |q| > 0 {
      var n := |q| - 1;
      assert q[..n] + [q[n]] == q && r[..n] + [r[n]] == r[..|q|];
      forall i | 0 <= i < n ensures Chosen(e, t, q[..n][..i], req[i], q[..n][i]) {
        assert q[..n][..i] == q[..i];
      }
      GreedyUnique(e, t, req, q[..n], r);
      assert Chosen(e, t, q[..n], req[n], q[n]) && Chosen(e, t, r[..n], req[n], r[n]);
      ChosenUnique(e, t, q[..n], req[n], q[n], r[n]);
    }
  }

  /** The lookup ends at one node only. */
  lemma FoundUnique(e: Engine, t: Trie, req: seq<string>, q: Path, r: Path)
    requires WellFormed(t) && Found(e, t, req, q) && Found(e, t, req, r) && |q| <= |r|
    ensures q == r
  {
    hide WellFormed, Chosen;
    if |q| < |r| {
      assert Chosen(e, t, r[..|q|], req[|q|], r[|q|]);
      GreedyUnique(e, t, req, q, r);
    } else {
      GreedyUnique(e, t, req, q, r);
      assert r[..|q|] == r;
    }
  }

  /** A node of static segments is found under its own name, whatever else is registered. */
  lemma StaticFindsItself(e: Engine, t: Trie, p: Path)
    requires WellFormed(t) && p in t && forall i :: 0 <= i < |p| ==> !Wild(p[i])
    ensures Found(e, t, p, p)
  {
    hide WellFormed;
    RouteMatch.PrefixesAreNodes(t, p, 0);
    forall i | 0 <= i < |p| ensures Chosen(e, t, p[..i], p[i], p[i]) {
      RouteMatch.PrefixesAreNodes(t, p, i + 1);
      assert p[..i] + [p[i]] == p[..i + 1];
    }
  }

  lemma {:induction false} NodesStay(e: Engine, calls: seq<Call>, m: nat, n: nat, p: Path)
    requires m <= n <= |calls| && p in RunTo(e, calls, m)
    ensures p in RunTo(e, calls, n)
    decreases n
  {
    hide AddRoute;
    if m < n {
      NodesStay(e, calls, m, n - 1, p);
      AddRouteKeepsNodes(e, RunTo(e, calls, n - 1), calls[n - 1].segs, calls[n - 1].handler);
    }
  }

  /** After any run, panicking calls among it, the tree is well formed: no node has two children
      among its star, parameter and regular-expression children. */
  lemma {:induction false} RunsKeepWellFormed(e: Engine, calls: seq<Call>, n: nat)
    requires n <= |calls|
    ensures WellFormed(RunTo(e, calls, n))
  {
    hide AddRoute, WellFormed;
    if n == 0 {
      NoTree();
    } else {
      RunsKeepWellFormed(e, calls, n - 1);
      AddRouteKeepsWellFormed(e, RunTo(e, calls, n - 1), calls[n - 1].segs, calls[n - 1].handler);
    }
  }

  /** A registered path of static segments finds its own node ever after. */
  lemma RegisteredStaticIsFound(e: Engine, calls: seq<Call>, i: nat, n: nat)
    requires i < n <= |calls|
    requires AddRoute(e, RunTo(e, calls, i), calls[i].segs, calls[i].handler).1
    requires forall k :: 0 <= k < |calls[i].segs| ==> !Wild(calls[i].segs[k])
    ensures var p := calls[i].segs;
      Found(e, RunTo(e, calls, n), p, p) && forall q :: Found(e, RunTo(e, calls, n), p, q) ==> q == p
  {
    hide AddRoute, WellFormed, Found, RunTo;
    var p := calls[i].segs;
    AddRouteKeepsNodes(e, RunTo(e, calls, i), p, calls[i].handler);
    NextRun(e, calls, i);
    NodesStay(e, calls, i + 1, n, p);
    RunsKeepWellFormed(e, calls, n);
    StaticFindsItself(e, RunTo(e, calls, n), p);
    forall q | Found(e, RunTo(e, calls, n), p, q) ensures q == p {
      FoundIsSound(e, RunTo(e, calls, n), p, q);
      FoundUnique(e, RunTo(e, calls, n), p, q, p);
    }
  }

  lemma CalledNode(e: Engine, calls: seq<Call>, i: nat, n: nat)
    requires i < n <= |calls|
    requires AddRoute(e, RunTo(e, calls, i), calls[i].segs, calls[i].handler).1
    ensures calls[i].segs in RunTo(e, calls, n)
  {
    hide AddRoute, RunTo;
    AddRouteKeepsNodes(e, RunTo(e, calls, i), calls[i].segs, calls[i].handler);
    NextRun(e, calls, i);
    NodesStay(e, calls, i + 1, n, calls[i].segs);
  }

  /** A handler that is not at a star stays. */
  lemma {:induction false} HandlerStays(e: Engine, calls: seq<Call>, i: nat, n: nat)
    requires i < n <= |calls|
    requires AddRoute(e, RunTo(e, calls, i), calls[i].segs, calls[i].handler).1 && calls[i].handler != None
    requires calls[i].segs == [] || !Star(calls[i].segs[|calls[i].segs| - 1])
    ensures Lookup(RunTo(e, calls, n), calls[i].segs).handler == calls[i].handler
    decreases n
  {
    hide AddRoute, RunTo, Bad, Clash;
    var p, t := calls[i].segs, RunTo(e, calls, n - 1);
    CalledNode(e, calls, i, n);
    NextRun(e, calls, n - 1);
    AddRouteExact(e, t, calls[n - 1].segs, calls[n - 1].handler);
    if i < n - 1 {
      CalledNode(e, calls, i, n - 1);
      HandlerStays(e, calls, i, n - 1);
    }
  }

  /** A path that has a node can be added again, but for the handler that it may have. */
  lemma NodeCanBeAdded(e: Engine, t: Trie, segs: Path)
    requires WellFormed(t) && segs in t
    requires forall i :: 0 <= i < |segs| ==> !Bad(e, segs[i])
    ensures forall i :: 0 <= i < |segs| ==> segs[i] != "" && !Bad(e, segs[i]) && !Clash(t, segs[..i], segs[i])
  {
    hide Bad, Clash;
    forall i | 0 <= i < |segs| ensures segs[i] != "" && !Clash(t, segs[..i], segs[i]) {
      RouteMatch.PrefixesAreNodes(t, segs, i + 1);
      assert segs[..i] + [segs[i]] == segs[..i + 1];
    }
  }

  /** A path that was registered with a handler is registered again at any later time iff it ends
      in a star, whatever is registered in between. */
  lemma RegisteredAgainExactly(e: Engine, calls: seq<Call>, i: nat, j: nat)
    requires i < j < |calls| && calls[i].segs == calls[j].segs
    requires AddRoute(e, RunTo(e, calls, i), calls[i].segs, calls[i].handler).1 && calls[i].handler != None
    ensures AddRoute(e, RunTo(e, calls, j), calls[j].segs, calls[j].handler).1 <==>
      calls[i].segs != [] && Star(calls[i].segs[|calls[i].segs| - 1])
  {
    hide AddRoute, RunTo, Bad, Clash, WellFormed;
    var p, t := calls[i].segs, RunTo(e, calls, j);
    AddRouteExact(e, RunTo(e, calls, i), p, calls[i].handler);
    AddRouteExact(e, t, p, calls[j].handler);
    CalledNode(e, calls, i, j);
    if p != [] && Star(p[|p| - 1]) {
      RunsKeepWellFormed(e, calls, j);
      NodeCanBeAdded(e, t, p);
    } else {
      HandlerStays(e, calls, i, j);
    }
  }

  /** The star right below the root, registered twice: both calls succeed and the second handler
      is the one that stays. */
  lemma StarTwice(e: Engine, f: Handler, g: Handler)
    ensures var calls := [Call(["*"], Some(f)), Call(["*"], Some(g))];
      && AddRoute(e, RunTo(e, calls, 0), ["*"], Some(f)).1
      && AddRoute(e, RunTo(e, calls, 1), ["*"], Some(g)).1
      && Lookup(RunTo(e, calls, 2), ["*"]).handler == Some(g)
  {
    hide AddRoute, WellFormed, Bad;
    var calls := [Call(["*"], Some(f)), Call(["*"], Some(g))];
    assert !Bad(e, "*") by {
      StarIsGood(e);
    }
    AddRouteExact(e, NO_TREE, ["*"], Some(f));
    NextRun(e, calls, 0);
    RegisteredAgainExactly(e, calls, 0, 1);
    NextRun(e, calls, 1);
    AddRouteExact(e, RunTo(e, calls, 1), ["*"], Some(g));
    PrefixOfItself(["*"]);
  }

  lemma StarIsGood(e: Engine)
    ensures !Bad(e, "*")
  {
    assert "*"[0] != ':';
  }

  lemma NextRun(e: Engine, calls: seq<Call>, i: nat)
    requires i < |calls|
    ensures RunTo(e, calls, i + 1) == AddRoute(e, RunTo(e, calls, i), calls[i].segs, calls[i].handler).0
  {
  }

  /** A name has the segment at the last place where the pattern uses it. */
  lemma ParamsAreLast(q: Path, req: seq<string>, n: nat, name: string)
    requires n <= |q| <= |req|
    ensures var ps := RouteMatch.ParamsTo(q, req, n, NameOf);
      && (name in ps <==> exists i :: 0 <= i < n && Param(q[i]) && NameOf(q[i]) == name)
      && (forall i :: 0 <= i < n && Param(q[i]) && NameOf(q[i]) == name
                      && (forall j :: i < j < n ==> !(Param(q[j]) && NameOf(q[j]) == name)) ==>
            name in ps && ps[name] == req[i])
  {
    hide Param, NameOf;
    RouteMatch.LastNamed(q, req, n, NameOf, name);
    assert forall i :: 0 <= i < n ==> (RouteMatch.Names(q[i], NameOf, name) <==> Param(q[i]) && NameOf(q[i]) == name);
  }

  lemma GreedyNext(e: Engine, t: Trie, req: seq<string>, q: Path, s: string)
    requires Greedy(e, t, req, q) && |q| < |req| && Chosen(e, t, q, req[|q|], s)
    ensures Greedy(e, t, req, q + [s])
  {
    hide Chosen;
    var r := q + [s];
    forall i | 0 <= i < |r| ensures Chosen(e, t, r[..i], req[i], r[i]) {
      assert r[..i] == q[..i];
    }
  }

  /** A lookup that fails has no node to end at. */
  lemma StuckIsLost(e: Engine, t: Trie, req: seq<string>, q: Path, r: Path)
    requires WellFormed(t) && Greedy(e, t, req, q) && |q| < |req|
    requires forall u :: !Chosen(e, t, q, req[|q|], u)
    requires q == [] || !Star(q[|q| - 1])
    ensures !Found(e, t, req, r)
  {
    hide WellFormed, Chosen;
    if Found(e, t, req, r) {
      if |q| < |r| {
        assert Chosen(e, t, r[..|q|], req[|q|], r[|q|]);
        GreedyUnique(e, t, req, q, r);
      } else if |r| < |q| {
        assert Chosen(e, t, q[..|r|], req[|r|], q[|r|]);
        GreedyUnique(e, t, req, r, q);
      } else {
        assert q[..|r|] == q;
        GreedyUnique(e, t, req, r, q);
      }
    }
  }

  /** The segments that hold an expression are those of the form `:name(expr)`, and the parts are the name
      before the first parenthesis and what stands between it and the last character. */
  lemma RegexExactly(s: string)
    ensures Regex(s) <==> exists name: string, expr: string :: s == ":" + name + "(" + expr + ")"
    ensures forall name: string, expr: string :: '(' !in name && s == ":" + name + "(" + expr + ")" ==>
      Regex(s) && ParseRegex(s) == (name, expr)
  {
    hide ParseRegex, IndexOf;
    if Regex(s) {
      var r := ParseRegex(s);
      assert s == ":" + r.0 + "(" + r.1 + ")";
    }
    forall name: string, expr: string | s == ":" + name + "(" + expr + ")" ensures Regex(s) {
      assert s[|name| + 1] == '(';
    }
    forall name: string, expr: string | '(' !in name && s == ":" + name + "(" + expr + ")"
      ensures ParseRegex(s) == (name, expr)
    {
      SameParts(s, name, expr, ParseRegex(s).0, ParseRegex(s).1);
    }
  }

  lemma SameParts(s: string, a: string, x: string, b: string, y: string)
    requires '(' !in a && '(' !in b && s == ":" + a + "(" + x + ")" && s == ":" + b + "(" + y + ")"
    ensures a == b && x == y
  {
    assert s[|a| + 1] == '(' && s[|b| + 1] == '(';
    assert forall k :: 0 <= k < |a| ==> s[k + 1] == a[k] && a[k] in a;
    assert forall k :: 0 <= k < |b| ==> s[k + 1] == b[k] && b[k] in b;
    assert |a| == |b|;
    assert a == s[1..|a| + 1] && b == s[1..|b| + 1];
    assert x == s[|a| + 2..|s| - 1] && y == s[|b| + 2..|s| - 1];
  }

  /** The pattern of the node found, spelled out: a segment with an expression matches it, one that begins
      with a colon or is a star matches anything, and any other is the request's own. */
  lemma FoundSegments(e: Engine, t: Trie, req: seq<string>, q: Path, i: nat)
    requires Found(e, t, req, q) && i < |q|
    ensures q[i] == "*" || ":" <= q[i] || q[i] == req[i]
    ensures forall name: string, expr: string :: '(' !in name && q[i] == ":" + name + "(" + expr + ")" ==>
      e.matches(expr, req[i])
  {
    assert Chosen(e, t, q[..i], req[i], q[i]);
    RegexExactly(q[i]);
  }

  /** The conflict rules, spelled out: at a segment that is a star or begins with a colon no other such
      child may stand, expressions compile, and only a star's handler may be replaced. */
  lemma AcceptedExactly(e: Engine, t: Trie, segs: Path, handler: Option<Handler>)
    ensures AddRoute(e, t, segs, handler).1 <==>
      && (forall i :: 0 <= i < |segs| ==> segs[i] != "")
      && (forall i, name: string, expr: string ::
            0 <= i < |segs| && '(' !in name && segs[i] == ":" + name + "(" + expr + ")" ==> e.compiles(expr))
      && (forall i, o: string :: 0 <= i < |segs| && segs[..i] + [o] in t && o != segs[i] ==>
            !((o == "*" || ":" <= o) && (segs[i] == "*" || ":" <= segs[i])))
      && (segs in t && t[segs].handler != None ==> segs != [] && segs[|segs| - 1] == "*")
  {
    hide AddRoute, ParseRegex, Regex;
    AddRouteExact(e, t, segs, handler);
    forall s: string ensures Wild(s) <==> s == "*" || ":" <= s {
    }
    forall i | 0 <= i < |segs|
      ensures !Bad(e, segs[i]) <==>
        forall name: string, expr: string ::
          '(' !in name && segs[i] == ":" + name + "(" + expr + ")" ==> e.compiles(expr)
    {
      RegexExactly(segs[i]);
    }
  }

  /** A star takes what is left of a request: registered as `/a` and a star below it, it is found for a
      request that goes on after it. */
  lemma StarTakesRest(e: Engine, h: Option<Handler>)
    ensures var t := AddRoute(e, NO_TREE, ["a", "*"], h).0;
      AddRoute(e, NO_TREE, ["a", "*"], h).1 && Found(e, t, ["a", "b", "c"], ["a", "*"])
  {
    hide AddRoute, WellFormed, Chosen;
    var t := AddRoute(e, NO_TREE, ["a", "*"], h).0;
    StarTree(e, h);
    StarChoices(e, t);
    var q, req := ["a", "*"], ["a", "b", "c"];
    assert q[..0] == [] && q[..1] == ["a"];
    forall i | 0 <= i < 2 ensures Chosen(e, t, q[..i], req[i], q[i]) {
      assert i == 0 || i == 1;
    }
  }

  lemma StarTree(e: Engine, h: Option<Handler>)
    ensures var (t, ok) := AddRoute(e, NO_TREE, ["a", "*"], h);
      ok && forall p :: p in t <==> p == [] || p == ["a"] || p == ["a", "*"]
  {
    hide AddRoute, Bad;
    var t := AddRoute(e, NO_TREE, ["a", "*"], h).0;
    assert !Bad(e, "a") by {
      LetterIsGood(e);
    }
    StarIsGood(e);
    AddRouteExact(e, NO_TREE, ["a", "*"], h);
    assert forall i :: 0 <= i < 2 ==> ["a", "*"][i] == "a" || ["a", "*"][i] == "*";
    forall p: Path ensures p in t <==> p == [] || p == ["a"] || p == ["a", "*"] {
      PrefixesOfTwo(p);
    }
  }

  lemma LetterIsGood(e: Engine)
    ensures !Bad(e, "a")
  {
    assert "a"[0] != ':';
  }

  lemma StarChoices(e: Engine, t: Trie)
    requires forall p :: p in t <==> p == [] || p == ["a"] || p == ["a", "*"]
    ensures Chosen(e, t, [], "a", "a") && Chosen(e, t, ["a"], "b", "*")
    ensures forall u :: !Chosen(e, t, ["a", "*"], "c", u)
  {
    assert "a"[0] != ':' && "*"[0] != ':' && "b" != "a" && "a" != "*" && "b" != "*";
    assert [] + ["a"] == ["a"] && ["a"] + ["*"] == ["a", "*"];
    assert |["a"] + ["b"]| == 2 && (["a"] + ["b"])[1] == "b";
    assert Chosen(e, t, [], "a", "a");
    assert Chosen(e, t, ["a"], "b", "*");
    forall u ensures !Chosen(e, t, ["a", "*"], "c", u) {
      assert |["a", "*"] + [u]| == 3;
    }
  }

  lemma PrefixesOfTwo(p: Path)
    ensures IsPrefix(p, ["a", "*"]) <==> p == [] || p == ["a"] || p == ["a", "*"]
  {
    var q := ["a", "*"];
    assert q[..0] == [] && q[..1] == ["a"] && q[..2] == q;
  }
}
