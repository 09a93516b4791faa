/** The route tree of web/homework2/route.go as a value: the map from the prefixes that have a
    node to what the node holds. The tree of linked nodes is in route.dfy. */
module RouteTrie {
  import opened Wrappers

  datatype Handler = Handler(id: nat)
  datatype Middleware = Middleware(id: nat)

  /** The segments from the root down to a node. */
  type Path = seq<string>

  datatype Info = Info(handler: Option<Handler>, mdls: seq<Middleware>, route: string)

  const EMPTY_INFO := Info(None, [], "")

  type Trie = map<Path, Info>

  const NO_TREE: Trie := map[]

  predicate Star(s: string) { s == "*" }

  predicate Param(s: string) { |s| > 0 && s[0] == ':' }

  predicate Wild(s: string) { Star(s) || Param(s) }

  // ---------------------------------------------------------------- what every call keeps

  /** Another wildcard or parameter child stands in the way of `s` below `p`. */
  ghost predicate Clash(t: Trie, p: Path, s: string)
  {
    Wild(s) && exists o :: Wild(o) && o != s && p + [o] in t
  }

  /** Prefixes of nodes are nodes, segments are not empty, and no node has two children among
      its wildcard and parameter children. */
  ghost predicate WellFormed(t: Trie)
  {
    && (t != map[] ==> [] in t)
    && (forall p, s :: p + [s] in t ==> p in t && s != "")
    && (forall p, s :: p + [s] in t ==> !Clash(t, p, s))
  }

  // ---------------------------------------------------------------- registration, step by step

  /** `childOrCreate` for a segment that is not empty. */
  ghost function ChildOrCreate(t: Trie, p: Path, s: string): (r: Option<Trie>)
  {
    if Clash(t, p, s) then None
    else if p + [s] in t then Some(t)
    else Some(t[p + [s] := EMPTY_INFO])
  }

  /** The loop of `addRoute` from the segment after the first `i` on. `ok` is false if a segment
      panics; the nodes made before that stay. */
  ghost function Walk(t: Trie, segs: Path, i: nat): (r: (Trie, bool))
    requires i <= |segs|
    decreases |segs| - i
  {
    if i == |segs| then (t, true)
    else if segs[i] == "" then (t, false)
    else match ChildOrCreate(t, segs[..i], segs[i])
      case None => (t, false)
      case Some(u) => Walk(u, segs, i + 1)
  }

  datatype Registration = Registration(path: string, segs: Path, handler: Option<Handler>, ms: seq<Middleware>)

  /** What the last node holds after the call. The root's `route` stays empty. */
  function Register(i: Info, c: Registration): Info
  {
    Info(c.handler, i.mdls + c.ms, if c.segs == [] then i.route else c.path)
  }

  /** What the tree holds for a path; nothing, if it has no node. */
  function Lookup(t: Trie, p: Path): Info
  {
    if p in t then t[p] else EMPTY_INFO
  }

  ghost function WithRoot(t: Trie): Trie
  {
    if [] in t then t else t[[] := EMPTY_INFO]
  }

  /** `addRoute` on a path that has the right format, in the tree of one HTTP method. */
  ghost function AddRoute(t: Trie, c: Registration): (r: (Trie, bool))
  {
    var (u, ok) := Walk(WithRoot(t), c.segs, 0);
    if !ok || c.segs !in u || u[c.segs].handler != None then (u, false)
    else (u[c.segs := Register(u[c.segs], c)], true)
  }

  // ---------------------------------------------------------------- registration, at once

  /** When a path can be added. */
  ghost predicate CanAdd(t: Trie, segs: Path)
  {
    && (forall i :: 0 <= i < |segs| ==> segs[i] != "")
    && (forall i :: 0 <= i < |segs| ==> !Clash(t, segs[..i], segs[i]))
    && (segs in t ==> t[segs].handler == None)
  }

  ghost predicate IsPrefix(p: Path, q: Path)
  {
    |p| <= |q| && p == q[..|p|]
  }

  /** The tree with nodes for the first `n` segments, and all before them. */
  ghost function WithNodes(t: Trie, segs: Path, n: nat): (r: Trie)
    requires n <= |segs|
  {
    if n == 0 then WithRoot(t) else
    var u := WithNodes(t, segs, n - 1);
    if segs[..n] in u then u else u[segs[..n] := EMPTY_INFO]
  }

  ghost function Added(t: Trie, c: Registration): (r: Trie)
  {
    var u := WithNodes(t, c.segs, |c.segs|);
    u[c.segs := Register(Lookup(u, c.segs), c)]
  }

  lemma {:induction false} WithNodesIs(t: Trie, segs: Path, n: nat)
    requires n <= |segs|
    ensures forall p :: p in WithNodes(t, segs, n) <==> p in t || (|p| <= n && IsPrefix(p, segs))
    ensures forall p :: p in WithNodes(t, segs, n) ==>
      WithNodes(t, segs, n)[p] == Lookup(t, p)
  {
    if n > 0 {
      WithNodesIs(t, segs, n - 1);
      var u, v := WithNodes(t, segs, n - 1), WithNodes(t, segs, n);
      forall p ensures p in v <==> p in t || (|p| <= n && IsPrefix(p, segs)) {
      }
    }
  }

  ghost predicate Blocked(t: Trie, segs: Path, i: nat)
    requires i < |segs|
  {
    segs[i] == "" || Clash(t, segs[..i], segs[i])
  }

  /** How many segments from the first `i` on get a node before one panics. */
  ghost function Reached(t: Trie, segs: Path, i: nat): (n: nat)
    requires i <= |segs|
    ensures i <= n <= |segs|
    ensures forall j :: i <= j < n ==> !Blocked(t, segs, j)
    ensures n < |segs| ==> Blocked(t, segs, n)
    decreases |segs| - i
  {
    if i == |segs| || Blocked(t, segs, i) then i else Reached(t, segs, i + 1)
  }

  /** The nodes made on the way do not change what blocks the segments after them. */
  lemma ClashUnchanged(t: Trie, segs: Path, i: nat)
    requires i < |segs|
    ensures Clash(WithNodes(t, segs, i), segs[..i], segs[i]) <==> Clash(t, segs[..i], segs[i])
  {
    hide WithNodes, Wild;
    WithNodesIs(t, segs, i);
    forall o ensures segs[..i] + [o] in WithNodes(t, segs, i) <==> segs[..i] + [o] in t {
      assert |segs[..i] + [o]| == i + 1;
    }
  }

  lemma {:induction false} WalkIs(t: Trie, segs: Path, i: nat)
    requires i <= |segs|
    ensures var n := Reached(t, segs, i);
      Walk(WithNodes(t, segs, i), segs, i) == (WithNodes(t, segs, n), n == |segs|)
    decreases |segs| - i
  {
    hide Clash;
    if i < |segs| {
      ClashUnchanged(t, segs, i);
      if !Blocked(t, segs, i) {
        assert segs[..i] + [segs[i]] == segs[..i + 1];
        WalkIs(t, segs, i + 1);
      }
    }
  }

  lemma AddedIs(t: Trie, c: Registration)
    ensures forall p :: p in Added(t, c) <==> p in t || IsPrefix(p, c.segs)
    ensures forall p :: p in Added(t, c) ==>
      Added(t, c)[p] == if p == c.segs then Register(Lookup(t, p), c) else Lookup(t, p)
  {
    hide WithNodes, Register;
    WithNodesIs(t, c.segs, |c.segs|);
  }

  /** The loop and the conflict rules of `addRoute` amount to this: it succeeds iff the path can
      be added, and then the tree gains the prefixes of the path and the path's own node takes
      the handler, the route and, after those it has, the middlewares. If it panics, the only
      change is that some prefixes of the path, up to the blocked segment, have nodes. */
  lemma AddRouteExact(t: Trie, c: Registration)
    ensures AddRoute(t, c).1 <==> CanAdd(t, c.segs)
    ensures AddRoute(t, c).1 ==> AddRoute(t, c).0 == Added(t, c)
    ensures !AddRoute(t, c).1 ==> AddRoute(t, c).0 == WithNodes(t, c.segs, Reached(t, c.segs, 0))
  {
    hide Clash, Register, Walk, WithNodes, WithRoot;
    var n := Reached(t, c.segs, 0);
    WalkFromRoot(t, c.segs);
    WithNodesIs(t, c.segs, n);
    if n < |c.segs| {
      assert Blocked(t, c.segs, n);
    } else {
      forall i | 0 <= i < |c.segs| ensures c.segs[i] != "" && !Clash(t, c.segs[..i], c.segs[i]) {
        assert !Blocked(t, c.segs, i);
      }
      assert IsPrefix(c.segs, c.segs);
      var u := WithNodes(t, c.segs, n);
      assert c.segs in u && u[c.segs] == Lookup(t, c.segs);
      assert (AddRoute(t, c).1 <==> u[c.segs].handler == None);
    }
  }

  lemma WalkFromRoot(t: Trie, segs: Path)
    ensures var n := Reached(t, segs, 0);
      Walk(WithRoot(t), segs, 0) == (WithNodes(t, segs, n), n == |segs|)
  {
    hide Walk;
    WalkIs(t, segs, 0);
  }

  /** `AddRoute`, seen from one path: only the path's own node changes what it holds. */
  lemma AddRouteAt(t: Trie, c: Registration, p: Path)
    ensures Lookup(AddRoute(t, c).0, p) ==
      if AddRoute(t, c).1 && p == c.segs then Register(Lookup(t, p), c) else Lookup(t, p)
    ensures p in t ==> p in AddRoute(t, c).0
    ensures p in AddRoute(t, c).0 ==> p in t || IsPrefix(p, c.segs)
    ensures AddRoute(t, c).1 && IsPrefix(p, c.segs) ==> p in AddRoute(t, c).0
  {
    hide AddRoute, CanAdd, Added, Register, WithNodes;
    AddRouteExact(t, c);
    AddedIs(t, c);
    WithNodesIs(t, c.segs, Reached(t, c.segs, 0));
    assert IsPrefix(c.segs, c.segs);
  }

  lemma SameChild(p: Path, s: string, q: Path, r: string)
    ensures p + [s] == q + [r] <==> p == q && s == r
  {
    assert (p + [s])[|p|] == s && (p + [s])[..|p|] == p;
    assert (q + [r])[|q|] == r && (q + [r])[..|q|] == q;
  }

  lemma AddNodeKeepsWellFormed(t: Trie, p: Path, s: string, u: Trie)
    requires WellFormed(t) && p in t && s != "" && !Clash(t, p, s)
    requires u.Keys == t.Keys + {p + [s]}
    ensures WellFormed(u)
  {
    hide Wild;
    forall q, r | q + [r] in u ensures q in u && r != "" {
      SameChild(q, r, p, s);
    }
    forall q, r | q + [r] in u ensures !Clash(u, q, r) {
      SameChild(q, r, p, s);
      forall o | Wild(o) && o != r && Wild(r) ensures q + [o] !in u {
        SameChild(q, o, p, s);
      }
    }
  }

  lemma {:induction false} WithNodesKeepsWellFormed(t: Trie, segs: Path, n: nat)
    requires WellFormed(t) && n <= Reached(t, segs, 0)
    ensures WellFormed(WithNodes(t, segs, n))
  {
    hide Clash, WellFormed, Blocked, Reached;
    if n == 0 {
      RootKeepsWellFormed(t);
    } else {
      WithNodesKeepsWellFormed(t, segs, n - 1);
      assert !Blocked(t, segs, n - 1);
      NextNodeKeepsWellFormed(t, segs, n - 1);
    }
  }

  lemma NextNodeKeepsWellFormed(t: Trie, segs: Path, n: nat)
    requires n < |segs| && WellFormed(WithNodes(t, segs, n)) && !Blocked(t, segs, n)
    ensures WellFormed(WithNodes(t, segs, n + 1))
  {
    hide Clash, WellFormed;
    var u, p := WithNodes(t, segs, n), segs[..n];
    ClashUnchanged(t, segs, n);
    assert p in u by {
      WithNodesIs(t, segs, n);
    }
    assert segs[..n + 1] == p + [segs[n]];
    if segs[..n + 1] !in u {
      AddNodeKeepsWellFormed(u, p, segs[n], WithNodes(t, segs, n + 1));
    }
  }

  lemma RootKeepsWellFormed(t: Trie)
    requires WellFormed(t)
    ensures WellFormed(WithRoot(t))
  {
    if t == map[] {
      assert WithRoot(t) == map[[] := EMPTY_INFO];
      SingleRoot();
    }
  }

  lemma SingleRoot()
    ensures WellFormed(map[[] := EMPTY_INFO])
  {
  }

  lemma SameNodesWellFormed(t: Trie, u: Trie)
    requires WellFormed(t) && u.Keys == t.Keys
    ensures WellFormed(u)
  {
    if t == map[] {
      assert u.Keys == {};
    }
  }

  /** Every call of `addRoute`, panicking or not, keeps the tree well formed. */
  lemma AddRouteKeepsWellFormed(t: Trie, c: Registration)
    requires WellFormed(t)
    ensures WellFormed(AddRoute(t, c).0)
  {
    hide WellFormed, WithNodes, WithRoot, Walk, Clash, Register;
    WalkFromRoot(t, c.segs);
    WithNodesKeepsWellFormed(t, c.segs, Reached(t, c.segs, 0));
    var (u, ok) := Walk(WithRoot(t), c.segs, 0);
    if AddRoute(t, c).1 {
      SameNodesWellFormed(u, AddRoute(t, c).0);
    }
  }

  // ---------------------------------------------------------------- order of registration

  /** Two paths that do not ask for two different wildcard or parameter children of one node. */
  ghost predicate Compatible(a: Path, b: Path)
  {
    forall i :: 0 <= i < |a| && i < |b| && a[..i] == b[..i] && Wild(a[i]) && Wild(b[i]) ==> a[i] == b[i]
  }

  lemma ClashAfter(t: Trie, c: Registration, b: Path, i: nat)
    requires i < |b|
    ensures Clash(Added(t, c), b[..i], b[i]) <==>
      || Clash(t, b[..i], b[i])
      || (i < |c.segs| && c.segs[..i] == b[..i] && Wild(c.segs[i]) && Wild(b[i]) && c.segs[i] != b[i])
  {
    hide Added, Wild;
    AddedIs(t, c);
    forall o
      ensures b[..i] + [o] in Added(t, c) <==>
        b[..i] + [o] in t || (i < |c.segs| && c.segs[..i] == b[..i] && c.segs[i] == o)
    {
      var q := b[..i] + [o];
      assert q[..i] == b[..i] && q[i] == o;
      if i < |c.segs| {
        assert c.segs[..i + 1] == c.segs[..i] + [c.segs[i]];
      }
    }
    if i < |c.segs| && c.segs[..i] == b[..i] {
      assert b[..i] + [c.segs[i]] in Added(t, c);
    }
  }

  lemma CanAddAfter(t: Trie, a: Registration, b: Path)
    requires a.segs != b
    ensures CanAdd(Added(t, a), b) <==> CanAdd(t, b) && Compatible(a.segs, b)
  {
    hide Clash, Wild, Added, Register;
    AddedIs(t, a);
    forall i | 0 <= i < |b|
      ensures Clash(Added(t, a), b[..i], b[i]) <==>
        || Clash(t, b[..i], b[i])
        || (i < |a.segs| && a.segs[..i] == b[..i] && Wild(a.segs[i]) && Wild(b[i]) && a.segs[i] != b[i])
    {
      ClashAfter(t, a, b, i);
    }
  }

  /** Two different paths: whether both can be added does not depend on the order, and if both
      can, the two orders give the same tree, with the same handlers, middlewares and routes. */
  lemma OrderIndependent(t: Trie, a: Registration, b: Registration)
    requires a.segs != b.segs
    ensures AddRoute(t, a).1 && AddRoute(AddRoute(t, a).0, b).1 <==>
            AddRoute(t, b).1 && AddRoute(AddRoute(t, b).0, a).1
    ensures AddRoute(t, a).1 && AddRoute(AddRoute(t, a).0, b).1 ==>
            AddRoute(AddRoute(t, a).0, b).0 == AddRoute(AddRoute(t, b).0, a).0
  {
    hide AddRoute, CanAdd, Added, Compatible;
    AddRouteExact(t, a);
    AddRouteExact(t, b);
    AddRouteExact(Added(t, a), b);
    AddRouteExact(Added(t, b), a);
    CanAddAfter(t, a, b.segs);
    CanAddAfter(t, b, a.segs);
    CompatibleBothWays(a.segs, b.segs);
    AddedCommutes(t, a, b);
  }

  lemma CompatibleBothWays(a: Path, b: Path)
    ensures Compatible(a, b) <==> Compatible(b, a)
  {
  }

  lemma AddedCommutes(t: Trie, a: Registration, b: Registration)
    requires a.segs != b.segs
    ensures Added(Added(t, a), b) == Added(Added(t, b), a)
  {
    hide Added, Register, IsPrefix;
    PrefixOfItself(a.segs);
    PrefixOfItself(b.segs);
    AddedIs(t, a);
    AddedIs(t, b);
    AddedIs(Added(t, a), b);
    AddedIs(Added(t, b), a);
  }

  // ---------------------------------------------------------------- runs

  /** The tree after the first `n` calls, from no tree at all. */
  ghost function RunTo(calls: seq<Registration>, n: nat): (t: Trie)
    requires n <= |calls|
  {
    if n == 0 then map[] else AddRoute(RunTo(calls, n - 1), calls[n - 1]).0
  }

  /** Call number `i` of the run succeeds. */
  ghost predicate Accepted(calls: seq<Registration>, i: nat)
    requires i < |calls|
  {
    AddRoute(RunTo(calls, i), calls[i]).1
  }

  /** What the accepted calls for exactly this path have built up, in order. */
  ghost function Built(calls: seq<Registration>, n: nat, p: Path): (i: Info)
    requires n <= |calls|
  {
    if n == 0 then EMPTY_INFO else
    var i := Built(calls, n - 1, p);
    if Accepted(calls, n - 1) && calls[n - 1].segs == p then Register(i, calls[n - 1]) else i
  }

  /** The tree refines its history. After any run of calls, panicking ones among them, it is
      well formed; every node lies on the path of some call and holds what the accepted calls
      for exactly its path built up; and every accepted path has a node. */
  lemma {:induction false} TreeRefinesHistory(calls: seq<Registration>, n: nat)
    requires n <= |calls|
    ensures WellFormed(RunTo(calls, n))
    ensures forall p :: Lookup(RunTo(calls, n), p) == Built(calls, n, p)
    ensures forall p :: p in RunTo(calls, n) ==> exists i :: 0 <= i < n && IsPrefix(p, calls[i].segs)
    ensures forall p, i :: 0 <= i < n && Accepted(calls, i) && IsPrefix(p, calls[i].segs) ==> p in RunTo(calls, n)
  {
    hide WellFormed, AddRoute, Lookup, Register, IsPrefix;
    if n == 0 {
      NoTree();
    } else {
      TreeRefinesHistory(calls, n - 1);
      var t, c := RunTo(calls, n - 1), calls[n - 1];
      AddRouteKeepsWellFormed(t, c);
      forall p: Path
        ensures Lookup(RunTo(calls, n), p) == Built(calls, n, p)
        ensures p in t ==> p in RunTo(calls, n)
        ensures p in RunTo(calls, n) ==> p in t || IsPrefix(p, c.segs)
        ensures Accepted(calls, n - 1) && IsPrefix(p, c.segs) ==> p in RunTo(calls, n)
      {
        AddRouteAt(t, c, p);
      }
    }
  }

  lemma NoTree()
    ensures WellFormed(map[]) && forall p :: Lookup(map[], p) == EMPTY_INFO
  {
  }

  lemma PrefixOfItself(p: Path)
    ensures IsPrefix(p, p)
  {
  }

  /** If no call panicked, the nodes are exactly the prefixes of the registered paths. */
  lemma NodesArePrefixes(calls: seq<Registration>)
    requires forall i :: 0 <= i < |calls| ==> Accepted(calls, i)
    ensures forall p :: p in RunTo(calls, |calls|) <==>
      exists i :: 0 <= i < |calls| && IsPrefix(p, calls[i].segs)
  {
    hide IsPrefix, Accepted, RunTo, WellFormed;
    TreeRefinesHistory(calls, |calls|);
    assert forall p, i :: 0 <= i < |calls| && IsPrefix(p, calls[i].segs) ==> p in RunTo(calls, |calls|);
  }

  /** A path that was registered with a handler is never registered again. */
  lemma NoSecondHandler(calls: seq<Registration>, i: nat, j: nat)
    requires i < j < |calls| && calls[i].segs == calls[j].segs
    requires Accepted(calls, i) && calls[i].handler != None
    ensures !Accepted(calls, j)
  {
    hide WellFormed, RunTo, IsPrefix;
    HandlerStays(calls, i, j);
    TreeRefinesHistory(calls, j);
    AddRouteExact(RunTo(calls, j), calls[j]);
  }

  lemma {:induction false} HandlerStays(calls: seq<Registration>, i: nat, n: nat)
    requires i < n <= |calls|
    requires Accepted(calls, i) && calls[i].handler != None
    ensures Built(calls, n, calls[i].segs).handler == calls[i].handler
    ensures calls[i].segs in RunTo(calls, n)
  {
    hide WellFormed, RunTo, Accepted;
    var p := calls[i].segs;
    TreeRefinesHistory(calls, n);
    PrefixOfItself(p);
    if i < n - 1 {
      HandlerStays(calls, i, n - 1);
      if Accepted(calls, n - 1) && calls[n - 1].segs == p {
        TreeRefinesHistory(calls, n - 1);
        AddRouteExact(RunTo(calls, n - 1), calls[n - 1]);
        AcceptedCan(calls, n - 1);
      }
    }
  }

  lemma AcceptedCan(calls: seq<Registration>, i: nat)
    requires i < |calls| && Accepted(calls, i)
    ensures CanAdd(RunTo(calls, i), calls[i].segs)
  {
    AddRouteExact(RunTo(calls, i), calls[i]);
  }

  // ---------------------------------------------------------------- what a node has built up

  /** Call number `i` of the run succeeds and is for the path `p`. */
  ghost predicate AcceptedFor(calls: seq<Registration>, i: nat, p: Path)
    requires i < |calls|
  {
    Accepted(calls, i) && calls[i].segs == p
  }

  /** One call: only an accepted one for just this path changes what the path's node holds. It puts
      its middlewares after those that are there and its handler in place of none, and names the
      route, but for the root. */
  lemma OneCall(calls: seq<Registration>, i: nat, p: Path)
    requires i < |calls|
    ensures var before, after, c := Lookup(RunTo(calls, i), p), Lookup(RunTo(calls, i + 1), p), calls[i];
      && (!AcceptedFor(calls, i, p) ==> after == before)
      && (AcceptedFor(calls, i, p) ==>
            && before.handler == None && after.handler == c.handler
            && after.mdls == before.mdls + c.ms
            && after.route == if p == [] then before.route else c.path)
  {
    hide AddRoute, RunTo, CanAdd;
    NextState(calls, i);
    AddRouteAt(RunTo(calls, i), calls[i], p);
    AddRouteExact(RunTo(calls, i), calls[i]);
    if AcceptedFor(calls, i, p) {
      CanAddHandler(RunTo(calls, i), p);
    }
  }

  lemma NextState(calls: seq<Registration>, i: nat)
    requires i < |calls|
    ensures RunTo(calls, i + 1) == AddRoute(RunTo(calls, i), calls[i]).0
  {
  }

  lemma CanAddHandler(t: Trie, p: Path)
    requires CanAdd(t, p)
    ensures Lookup(t, p).handler == None
  {
    hide Clash;
  }

  /** The middlewares of the accepted calls for a path, in the order of the calls. */
  ghost function MdlsOf(calls: seq<Registration>, n: nat, p: Path): (r: seq<Middleware>)
    requires n <= |calls|
  {
    if n == 0 then [] else
    MdlsOf(calls, n - 1, p) + (if AcceptedFor(calls, n - 1, p) then calls[n - 1].ms else [])
  }

  /** What a node holds after any run, panicking calls among it: the middlewares of all accepted
      calls for its path, one call after another. */
  lemma {:induction false} MdlsBuiltUp(calls: seq<Registration>, n: nat, p: Path)
    requires n <= |calls|
    ensures Lookup(RunTo(calls, n), p).mdls == MdlsOf(calls, n, p)
  {
    hide RunTo, AcceptedFor, Lookup;
    if n == 0 {
      EmptyRun(calls, p);
    } else {
      MdlsBuiltUp(calls, n - 1, p);
      OneCall(calls, n - 1, p);
    }
  }

  /** Its handler is that of the last accepted call for its path; without any, it holds nothing. */
  lemma {:induction false} LastHandler(calls: seq<Registration>, n: nat, p: Path)
    requires n <= |calls|
    ensures var now := Lookup(RunTo(calls, n), p);
      && ((forall i :: 0 <= i < n ==> !AcceptedFor(calls, i, p)) ==> now == EMPTY_INFO)
      && (forall i :: 0 <= i < n && IsLastFor(calls, i, n, p) ==> now.handler == calls[i].handler)
  {
    hide RunTo, AcceptedFor, Lookup;
    if n == 0 {
      EmptyRun(calls, p);
    } else {
      LastHandler(calls, n - 1, p);
      OneCall(calls, n - 1, p);
      forall i | 0 <= i < n && IsLastFor(calls, i, n, p)
        ensures Lookup(RunTo(calls, n), p).handler == calls[i].handler
      {
        if i < n - 1 {
          assert IsLastFor(calls, i, n - 1, p);
        }
      }
    }
  }

  ghost predicate IsLastFor(calls: seq<Registration>, i: nat, n: nat, p: Path)
    requires i < n <= |calls|
  {
    AcceptedFor(calls, i, p) && forall j :: i < j < n ==> !AcceptedFor(calls, j, p)
  }

  lemma EmptyRun(calls: seq<Registration>, p: Path)
    ensures Lookup(RunTo(calls, 0), p) == EMPTY_INFO
  {
  }

  /** A node's middlewares, call by call: those of call number `i` stand after those that the node
      had before the call, and stay there. */
  lemma {:induction false} MdlsStay(calls: seq<Registration>, i: nat, n: nat, p: Path)
    requires i < n <= |calls| && AcceptedFor(calls, i, p)
    ensures Lookup(RunTo(calls, i), p).mdls + calls[i].ms <= Lookup(RunTo(calls, n), p).mdls
    decreases n
  {
    hide RunTo, AcceptedFor, Lookup;
    OneCall(calls, n - 1, p);
    if i < n - 1 {
      MdlsStay(calls, i, n - 1, p);
    }
  }

  /** A node that two calls build up: the first brings one middleware and no handler, the second a
      handler and another middleware. */
  lemma TwoCallsOneNode(a: Middleware, b: Middleware, h: Handler)
    ensures var calls := [Registration("/user", ["user"], None, [a]), Registration("/user", ["user"], Some(h), [b])];
      Accepted(calls, 0) && Accepted(calls, 1)
      && Lookup(RunTo(calls, 2), ["user"]) == Info(Some(h), [a, b], "/user")
  {
    hide AddRoute, Register, RunTo, Accepted, Clash, Lookup;
    var calls := [Registration("/user", ["user"], None, [a]), Registration("/user", ["user"], Some(h), [b])];
    EmptyRun(calls, ["user"]);
    UserAccepted(calls, 0);
    OneCall(calls, 0, ["user"]);
    UserAccepted(calls, 1);
    OneCall(calls, 1, ["user"]);
  }

  lemma NoClash(t: Trie, s: string)
    requires !Wild(s)
    ensures !Clash(t, [], s)
  {
  }

  lemma UserAccepted(calls: seq<Registration>, i: nat)
    requires i < |calls| && calls[i].segs == ["user"] && Lookup(RunTo(calls, i), ["user"]).handler == None
    ensures Accepted(calls, i)
  {
    hide AddRoute, RunTo, Clash;
    assert !Wild("user") by {
      assert "user"[0] != ':';
    }
    NoClash(RunTo(calls, i), "user");
    assert ["user"][..0] == [];
    AddRouteExact(RunTo(calls, i), calls[i]);
  }

  /** The conflict rules, spelled out: a path is accepted iff none of its segments is empty, at none of
      its segments that is a star or begins with a colon does another such child stand in the way,
      and its own node has no handler yet. */
  lemma AcceptedExactly(t: Trie, c: Registration)
    ensures AddRoute(t, c).1 <==>
      && (forall i :: 0 <= i < |c.segs| ==> c.segs[i] != "")
      && (forall i, o: string :: 0 <= i < |c.segs| && c.segs[..i] + [o] in t && o != c.segs[i] ==>
            !((o == "*" || ":" <= o) && (c.segs[i] == "*" || ":" <= c.segs[i])))
      && (c.segs in t ==> t[c.segs].handler == None)
  {
    hide AddRoute;
    AddRouteExact(t, c);
    forall s: string ensures Wild(s) <==> s == "*" || ":" <= s {
    }
  }
}
