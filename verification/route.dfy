/** The router of web/homework2/route.go as it runs: nodes linked to their children, one tree for
    each HTTP method. Each operation is proved against its function on the tree's value. */
module Route {
  import opened Wrappers
  import opened RouteTrie
  import opened RouteMatch
  import opened RoutePath

  class Node {
    const path: string
    var children: map<string, Node>
    var handler: Option<Handler>
    var mdls: seq<Middleware>
    var route: string
    var starChild: Node?
    var paramChild: Node?
    ghost const owner: string  // the HTTP method whose tree the node is in
    ghost const at: Path       // the segments from the root down to it

    constructor (path: string, ghost owner: string, ghost at: Path)
      ensures this.path == path && this.owner == owner && this.at == at
      ensures children == map[] && handler == None && mdls == [] && route == ""
      ensures starChild == null && paramChild == null
    {
      this.path := path;
      this.owner := owner;
      this.at := at;
      children := map[];
      handler := None;
      mdls := [];
      route := "";
      starChild := null;
      paramChild := null;
    }

    ghost function Holds(): Info
      reads this
    {
      Info(handler, mdls, route)
    }

    /** The node is the one of `p` among `ns`, and its links are those to the children there. */
    ghost predicate Linked(m: string, p: Path, ns: Nodes)
      reads this
    {
      && owner == m && at == p
      && path == (if p == [] then "/" else p[|p| - 1])
      && Links(starChild, paramChild, children, p, ns)
    }

    /** `childOf`: the child for a request segment, and whether it is the parameter child. */
    method ChildOf(seg: string, ghost m: string, ghost p: Path, ghost ns: Nodes)
      returns (c: Node?, matchParam: bool, ghost s: string)
      requires Linked(m, p, ns)
      ensures c == null ==> forall u :: !Chosen(TrieOf(ns), p, seg, u)
      ensures c != null ==> Chosen(TrieOf(ns), p, seg, s) && p + [s] in ns && c == ns[p + [s]]
      ensures c != null ==> (matchParam <==> Param(s))
    {
      TrieKeys(ns);
      if seg in children {
        return children[seg], false, seg;
      }
      if paramChild != null {
        return paramChild, true, paramChild.path;
      }
      return starChild, false, "*";
    }

    // -------------------------------------------------------------- registration

    /** `childOrCreate`. It panics exactly when the value of the tree says so. */
    method ChildOrCreate(s: string, ghost m: string, ghost p: Path, ghost ns: Nodes)
      returns (r: Option<Node>, ghost us: Nodes)
      requires TreeOk(m, ns) && p in ns && ns[p] == this && s != ""
      modifies this
      ensures Extended(s, m, p, ns, us, r, old(TrieOf(ns)))
      ensures forall q :: q in us && q !in ns ==> fresh(us[q])
    {
      if s == "*" {
        r, us := StarChildOrCreate(m, p, ns);
      } else if s[0] == ':' {
        r, us := ParamChildOrCreate(s, m, p, ns);
      } else {
        r, us := StaticChildOrCreate(s, m, p, ns);
      }
    }

    /** The end of `addRoute`: the node takes the handler, the route and the middlewares. The
        branch for the path "/" does not set the route. */
    method SetRoute(c: Registration, ghost m: string, ghost ns: Nodes)
      requires TreeOk(m, ns) && c.segs in ns && ns[c.segs] == this
      modifies this
      ensures TreeOk(m, ns)
      ensures c.segs in old(TrieOf(ns))
      ensures TrieOf(ns) == old(TrieOf(ns))[c.segs := Register(old(TrieOf(ns))[c.segs], c)]
    {
      hide TreeOk, TrieOf, Links;
      ghost var t := TrieOf(ns);
      TreeFacts(m, ns);
      handler := c.handler;
      if c.segs != [] {
        route := c.path;
      }
      mdls := mdls + c.ms;
      SameNodesWellFormed(t, t[c.segs := Register(t[c.segs], c)]);
      FactsTree(m, ns, t[c.segs := Register(t[c.segs], c)]);
    }

    method StarChildOrCreate(ghost m: string, ghost p: Path, ghost ns: Nodes)
      returns (r: Option<Node>, ghost us: Nodes)
      requires TreeOk(m, ns) && p in ns && ns[p] == this
      modifies this
      ensures Extended("*", m, p, ns, us, r, old(TrieOf(ns)))
      ensures forall q :: q in us && q !in ns ==> fresh(us[q])
    {
      hide TreeOk, Extended, Links, Clash, TrieOf;
      us := ns;
      BeforeChild("*", m, p, ns);
      if paramChild != null {
        return None, us;
      }
      if starChild == null {
        ghost var t := TrieOf(ns);
        var child := new Node("*", m, p + ["*"]);
        us := ns[p + ["*"] := child];
        LinksWithStar(child, children, p, ns);
        starChild := child;
        AfterChild(child, "*", m, p, ns, us, t);
      }
      return Some(starChild), us;
    }

    method ParamChildOrCreate(s: string, ghost m: string, ghost p: Path, ghost ns: Nodes)
      returns (r: Option<Node>, ghost us: Nodes)
      requires TreeOk(m, ns) && p in ns && ns[p] == this && Param(s)
      modifies this
      ensures Extended(s, m, p, ns, us, r, old(TrieOf(ns)))
      ensures forall q :: q in us && q !in ns ==> fresh(us[q])
    {
      hide TreeOk, Extended, Links, Clash, TrieOf;
      us := ns;
      BeforeChild(s, m, p, ns);
      if starChild != null {
        return None, us;
      }
      if paramChild != null {
        if paramChild.path != s {
          return None, us;
        }
      } else {
        ghost var t := TrieOf(ns);
        var child := new Node(s, m, p + [s]);
        us := ns[p + [s] := child];
        LinksWithParam(child, s, children, p, ns);
        paramChild := child;
        AfterChild(child, s, m, p, ns, us, t);
      }
      return Some(paramChild), us;
    }

    method StaticChildOrCreate(s: string, ghost m: string, ghost p: Path, ghost ns: Nodes)
      returns (r: Option<Node>, ghost us: Nodes)
      requires TreeOk(m, ns) && p in ns && ns[p] == this && s != "" && !Wild(s)
      modifies this
      ensures Extended(s, m, p, ns, us, r, old(TrieOf(ns)))
      ensures forall q :: q in us && q !in ns ==> fresh(us[q])
    {
      hide TreeOk, Extended, Links, Clash, TrieOf;
      us := ns;
      BeforeChild(s, m, p, ns);
      if s !in children {
        ghost var t := TrieOf(ns);
        var child := new Node(s, m, p + [s]);
        us := ns[p + [s] := child];
        LinksWithStatic(child, s, starChild, paramChild, children, p, ns);
        children := children[s := child];
        AfterChild(child, s, m, p, ns, us, t);
      }
      return Some(children[s]), us;
    }

    /** What the fields of a node say about the children it has. */
    lemma BeforeChild(s: string, m: string, p: Path, ns: Nodes)
      requires TreeOk(m, ns) && p in ns && ns[p] == this && s != ""
      ensures at == p && owner == m && path == (if p == [] then "/" else p[|p| - 1])
      ensures Links(starChild, paramChild, children, p, ns)
      ensures [] in ns && WellFormed(TrieOf(ns)) && TrieOf(ns).Keys == ns.Keys
      ensures forall q :: q in ns ==> ns[q].at == q && ns[q].Linked(m, q, ns) && ns[q].Holds() == TrieOf(ns)[q]
      ensures Star(s) && paramChild != null ==> Extended(s, m, p, ns, ns, None, TrieOf(ns))
      ensures Star(s) && paramChild == null && starChild != null ==>
        Extended(s, m, p, ns, ns, Some(starChild), TrieOf(ns))
      ensures Star(s) && paramChild == null && starChild == null ==>
        p + [s] !in ns && !Clash(TrieOf(ns), p, s)
      ensures Param(s) && (starChild != null || (paramChild != null && paramChild.path != s)) ==>
        Extended(s, m, p, ns, ns, None, TrieOf(ns))
      ensures Param(s) && starChild == null && paramChild != null && paramChild.path == s ==>
        Extended(s, m, p, ns, ns, Some(paramChild), TrieOf(ns))
      ensures Param(s) && starChild == null && paramChild == null ==>
        p + [s] !in ns && !Clash(TrieOf(ns), p, s)
      ensures !Wild(s) && s in children ==> Extended(s, m, p, ns, ns, Some(children[s]), TrieOf(ns))
      ensures !Wild(s) && s !in children ==> p + [s] !in ns && !Clash(TrieOf(ns), p, s)
    {
      hide WellFormed;
      TrieKeys(ns);
      assert Linked(m, p, ns);
    }

    lemma AfterChild(c: Node, s: string, m: string, p: Path, ns: Nodes, us: Nodes, t: Trie)
      requires [] in ns && p in ns && ns[p] == this && p + [s] !in ns && us == ns[p + [s] := c]
      requires WellFormed(t) && t.Keys == ns.Keys && s != "" && !Clash(t, p, s)
      requires forall q :: q in ns ==> ns[q].at == q && ns[q].Holds() == t[q]
      requires forall q :: q in ns && q != p ==> ns[q].Linked(m, q, ns)
      requires Linked(m, p, us)
      requires c.owner == m && c.at == p + [s] && c.path == s && c.Holds() == EMPTY_INFO
      requires c.children == map[] && c.starChild == null && c.paramChild == null
      ensures Extended(s, m, p, ns, us, Some(c), t)
    {
      hide WellFormed, Clash, Linked;
      TrieKeys(us);
      var u := TrieOf(us);
      assert u == t[p + [s] := EMPTY_INFO];
      AddNodeKeepsWellFormed(t, p, s, u);
      forall q | q in us ensures us[q].Linked(m, q, us) {
        if q == p + [s] {
          c.LinkedLeaf(m, p, s, ns, us, t);
        } else if q != p {
          ns[q].LinkedStill(c, m, q, p, s, ns);
        }
      }
    }

    lemma LinkedLeaf(m: string, p: Path, s: string, ns: Nodes, us: Nodes, t: Trie)
      requires WellFormed(t) && t.Keys == ns.Keys
      requires p + [s] !in ns && us == ns[p + [s] := this]
      requires owner == m && at == p + [s] && path == s
      requires children == map[] && starChild == null && paramChild == null
      ensures Linked(m, p + [s], us)
    {
      forall x ensures p + [s] + [x] !in us {
        assert |p + [s] + [x]| == |p| + 2;
        assert p + [s] + [x] in t ==> p + [s] in t;
      }
    }

    lemma LinkedStill(c: Node, m: string, q: Path, p: Path, s: string, ns: Nodes)
      requires Linked(m, q, ns) && q != p && p + [s] !in ns
      ensures Linked(m, q, ns[p + [s] := c])
    {
      forall x ensures q + [x] != p + [s] {
        assert (q + [x])[..|q|] == q && (p + [s])[..|p|] == p;
      }
    }
  }

  /** A node's links are those to the children that `p` has among `ns`. */
  ghost predicate Links(star: Node?, param: Node?, kids: map<string, Node>, p: Path, ns: Nodes)
  {
    && (star != null ==> p + ["*"] in ns && ns[p + ["*"]] == star)
    && (p + ["*"] in ns ==> star != null)
    && (param != null ==> Param(param.path) && p + [param.path] in ns && ns[p + [param.path]] == param)
    && (forall s :: Param(s) && p + [s] in ns ==> param != null && param.path == s)
    && (forall s :: s in kids ==> !Wild(s) && p + [s] in ns && ns[p + [s]] == kids[s])
    && (forall s :: !Wild(s) && p + [s] in ns ==> s in kids)
  }

  lemma OneMore(p: Path, s: string, ns: Nodes, c: Node)
    ensures forall x :: x != s ==> (p + [x] in ns[p + [s] := c] <==> p + [x] in ns)
    ensures forall x :: x != s && p + [x] in ns ==> ns[p + [s] := c][p + [x]] == ns[p + [x]]
  {
    forall x | x != s ensures p + [x] != p + [s] {
      assert (p + [x])[|p|] == x && (p + [s])[|p|] == s;
    }
  }

  lemma LinksWithStar(c: Node, kids: map<string, Node>, p: Path, ns: Nodes)
    requires Links(null, null, kids, p, ns)
    ensures Links(c, null, kids, p, ns[p + ["*"] := c])
  {
    OneMore(p, "*", ns, c);
  }

  lemma LinksWithParam(c: Node, s: string, kids: map<string, Node>, p: Path, ns: Nodes)
    requires Links(null, null, kids, p, ns) && Param(s) && c.path == s
    ensures Links(null, c, kids, p, ns[p + [s] := c])
  {
    OneMore(p, s, ns, c);
  }

  lemma LinksWithStatic(c: Node, s: string, star: Node?, param: Node?, kids: map<string, Node>, p: Path, ns: Nodes)
    requires Links(star, param, kids, p, ns) && !Wild(s)
    ensures Links(star, param, kids[s := c], p, ns[p + [s] := c])
  {
    OneMore(p, s, ns, c);
  }

  type Nodes = map<Path, Node>

  /** The value of a tree. */
  ghost function TrieOf(ns: Nodes): (t: Trie)
    reads ns.Values
  {
    map p | p in ns :: ns[p].Holds()
  }

  /** A tree, node by node. */
  lemma TreeFacts(m: string, ns: Nodes)
    requires TreeOk(m, ns)
    ensures [] in ns && WellFormed(TrieOf(ns)) && TrieOf(ns).Keys == ns.Keys
    ensures forall q :: q in ns ==> ns[q].at == q && ns[q].Linked(m, q, ns) && ns[q].Holds() == TrieOf(ns)[q]
  {
    hide WellFormed, Links;
    TrieKeys(ns);
  }

  lemma FactsTree(m: string, ns: Nodes, t: Trie)
    requires [] in ns && WellFormed(t) && t.Keys == ns.Keys
    requires forall q :: q in ns ==> ns[q].Linked(m, q, ns) && ns[q].Holds() == t[q]
    ensures TreeOk(m, ns) && TrieOf(ns) == t
  {
    hide WellFormed, Links;
    TrieKeys(ns);
    assert TrieOf(ns) == t;
  }

  ghost function OneNode(root: Node): Nodes
  {
    map[[] := root]
  }

  lemma TrieKeys(ns: Nodes)
    ensures forall p :: p in TrieOf(ns) <==> p in ns
  {
  }

  /** `ns` is a whole tree of method `m`: every node is linked to its children, and the tree's
      value is well formed. */
  ghost predicate TreeOk(m: string, ns: Nodes)
    reads ns.Values
  {
    && [] in ns
    && WellFormed(TrieOf(ns))
    && forall p :: p in ns ==> ns[p].Linked(m, p, ns)
  }

  /** What `childOrCreate` leaves: the tree `us`, in place of `ns` whose value was `t`. */
  ghost predicate Extended(s: string, m: string, p: Path, ns: Nodes, us: Nodes, r: Option<Node>, t: Trie)
    reads us.Values
  {
    && TreeOk(m, us)
    && (forall q :: q in ns ==> q in us && us[q] == ns[q])
    && match RouteTrie.ChildOrCreate(t, p, s)
       case None => r == None && us == ns && TrieOf(us) == t
       case Some(u) => r.Some? && p + [s] in us && r.value == us[p + [s]] && TrieOf(us) == u
  }

  // ---------------------------------------------------------------- one tree

  /** `us` is `ns` with, perhaps, more nodes. */
  ghost predicate Grown(ns: Nodes, us: Nodes)
  {
    forall q :: q in ns ==> q in us && us[q] == ns[q]
  }

  /** The loop of `addRoute`: makes a node for every segment, or panics on the way. */
  method AddNodes(root: Node, segs: Path, ghost m: string, ghost ns: Nodes)
    returns (r: Option<Node>, ghost us: Nodes)
    requires TreeOk(m, ns) && [] in ns && ns[[]] == root
    modifies ns.Values
    ensures TreeOk(m, us) && Grown(ns, us)
    ensures forall q :: q in us && q !in ns ==> fresh(us[q])
    ensures Walk(old(TrieOf(ns)), segs, 0) == (TrieOf(us), r.Some?)
    ensures r.Some? ==> segs in us && r.value == us[segs]
  {
    hide TreeOk, TrieOf, RouteTrie.ChildOrCreate;
    var cur := root;
    us := ns;
    ghost var t := TrieOf(ns);
    assert segs[..0] == [];
    for i := 0 to |segs|
      invariant TreeOk(m, us) && Grown(ns, us)
      invariant forall q :: q in us && q !in ns ==> fresh(us[q])
      invariant segs[..i] in us && us[segs[..i]] == cur
      invariant Walk(t, segs, 0) == Walk(TrieOf(us), segs, i)
    {
      if segs[i] == "" {
        return None, us;
      }
      ghost var before := us;
      var c: Option<Node>;
      c, us := cur.ChildOrCreate(segs[i], m, segs[..i], us);
      assert segs[..i] + [segs[i]] == segs[..i + 1];
      if c == None {
        return None, us;
      }
      cur := c.value;
    }
    assert segs[..|segs|] == segs;
    return Some(cur), us;
  }

  /** `addRoute` from the root of the method's tree on. */
  method AddInTree(root: Node, c: Registration, ghost m: string, ghost ns: Nodes)
    returns (ok: bool, ghost us: Nodes)
    requires TreeOk(m, ns) && [] in ns && ns[[]] == root
    requires WithRoot(TrieOf(ns)) == TrieOf(ns)
    modifies ns.Values
    ensures TreeOk(m, us) && Grown(ns, us)
    ensures forall q :: q in us && q !in ns ==> fresh(us[q])
    ensures RouteTrie.AddRoute(old(TrieOf(ns)), c) == (TrieOf(us), ok)
  {
    hide TreeOk, TrieOf, Walk, Register;
    ghost var t := TrieOf(ns);
    var n: Option<Node>;
    n, us := AddNodes(root, c.segs, m, ns);
    TrieKeys(us);
    if n == None {
      return false, us;
    }
    var node := n.value;
    TrieAt(us, c.segs);
    if node.handler != None {
      return false, us;
    }
    ghost var u := TrieOf(us);
    node.SetRoute(c, m, us);
    return true, us;
  }

  lemma TrieAt(ns: Nodes, p: Path)
    requires p in ns
    ensures TrieOf(ns)[p] == ns[p].Holds()
  {
  }

  // ---------------------------------------------------------------- lookup in one tree

  /** A list of nodes, by the paths they are at. */
  ghost predicate Along(q: seq<Node>, ps: seq<Path>, ns: Nodes)
  {
    |q| == |ps| && forall i :: 0 <= i < |ps| ==> ps[i] in ns && q[i] == ns[ps[i]]
  }

  /** The children of a node that match a segment, as its fields give them. */
  lemma KidsOf(n: Node, p: Path, seg: string, m: string, ns: Nodes)
    requires TreeOk(m, ns) && p in ns && ns[p] == n
    ensures Kids(TrieOf(ns), p, seg) ==
      (if n.starChild != null then [p + ["*"]] else [])
      + (if n.paramChild != null then [p + [n.paramChild.path]] else [])
      + (if seg in n.children then [p + [seg]] else [])
    ensures n.starChild != null ==> p + ["*"] in ns && ns[p + ["*"]] == n.starChild
    ensures n.paramChild != null ==> p + [n.paramChild.path] in ns && ns[p + [n.paramChild.path]] == n.paramChild
    ensures seg in n.children ==> p + [seg] in ns && ns[p + [seg]] == n.children[seg]
  {
    hide WellFormed;
    TrieKeys(ns);
    assert n.Linked(m, p, ns);
  }

  /** One level of `findMdls`. */
  method NextLevel(q: seq<Node>, seg: string, ghost ps: seq<Path>, ghost m: string, ghost ns: Nodes)
    returns (p: seq<Node>)
    requires TreeOk(m, ns) && Along(q, ps, ns)
    ensures Along(p, KidsTo(TrieOf(ns), ps, seg, |ps|), ns)
  {
    hide TreeOk, TrieOf, Kids;
    p := [];
    for i := 0 to |q|
      invariant Along(p, KidsTo(TrieOf(ns), ps, seg, i), ns)
    {
      var n := q[i];
      KidsOf(n, ps[i], seg, m, ns);
      if n.starChild != null {
        p := p + [n.starChild];
      }
      if n.paramChild != null {
        p := p + [n.paramChild];
      }
      if seg in n.children {
        p := p + [n.children[seg]];
      }
    }
  }

  /** The last loop of `findMdls`. */
  method Collect(res: seq<Node>, ghost ps: seq<Path>, ghost m: string, ghost ns: Nodes) returns (mdl: seq<Middleware>)
    requires Along(res, ps, ns)
    ensures mdl == MdlsTo(TrieOf(ns), ps, |ps|)
  {
    TrieKeys(ns);
    mdl := [];
    for k := 0 to |res|
      invariant mdl == MdlsTo(TrieOf(ns), ps, k)
    {
      mdl := mdl + res[k].mdls;
    }
  }

  /** `findMdls`: the middlewares of all nodes whose pattern matches a prefix of the request. */
  method FindMdls(root: Node, segs: seq<string>, ghost m: string, ghost ns: Nodes)
    returns (mdl: seq<Middleware>)
    requires TreeOk(m, ns) && [] in ns && ns[[]] == root && |segs| > 0
    ensures mdl == SearchMdls(TrieOf(ns), segs)
  {
    hide TrieOf, KidsTo, Node.Linked, WellFormed, MdlsTo;
    ghost var t := TrieOf(ns);
    TrieKeys(ns);
    var res := [root];
    var q := [root];
    var l := 0;
    while |q| > 0
      invariant l < |segs|
      invariant Along(q, Level(t, segs, l), ns) && Along(res, LevelsTo(t, segs, l), ns)
      decreases |segs| - l
    {
      var p := NextLevel(q, segs[l], Level(t, segs, l), m, ns);
      res := res + p;
      q := p;
      l := l + 1;
      if l == |segs| {
        break;
      }
    }
    if l < |segs| {
      EmptyStays(t, segs, l, |segs|);
    }
    mdl := Collect(res, LevelsTo(t, segs, |segs|), m, ns);
  }

  /** The loop of `findRoute`. `q` is where it ends: at the last segment, or stuck before it. */
  method Descend(root: Node, segs: seq<string>, ghost m: string, ghost ns: Nodes)
    returns (n: Node?, params: map<string, string>, ghost q: Path)
    requires TreeOk(m, ns) && [] in ns && ns[[]] == root
    ensures Greedy(TrieOf(ns), segs, q)
    ensures n == null ==> |q| < |segs| && forall u :: !Chosen(TrieOf(ns), q, segs[|q|], u)
    ensures n != null ==> |q| == |segs| && q in ns && n == ns[q] && params == ParamsTo(q, segs, |segs|, AfterColon)
  {
    hide TrieOf, WellFormed, Node.Linked, Chosen;
    TrieKeys(ns);
    params := map[];
    q := [];
    var cur := root;
    for i := 0 to |segs|
      invariant |q| == i && q in ns && cur == ns[q]
      invariant Greedy(TrieOf(ns), segs, q)
      invariant params == ParamsTo(q, segs, i, AfterColon)
    {
      var c, matchParam, s := cur.ChildOf(segs[i], m, q, ns);
      if c == null {
        return null, params, q;
      }
      ChildPath(c, q, s, m, ns);
      GreedyNext(TrieOf(ns), segs, q, s);
      ParamsNext(q, s, segs, AfterColon);
      if matchParam {
        params := params[c.path[1..] := segs[i]];
      }
      cur := c;
      q := q + [s];
    }
    return cur, params, q;
  }

  lemma ChildPath(c: Node, q: Path, s: string, m: string, ns: Nodes)
    requires TreeOk(m, ns) && q + [s] in ns && c == ns[q + [s]]
    ensures c.path == s
  {
    hide WellFormed, Links;
    assert c.Linked(m, q + [s], ns);
  }

  // ---------------------------------------------------------------- the router

  class Router {
    var trees: map<string, Node>
    ghost var nodes: map<string, Nodes>
    ghost var calls: map<string, seq<Registration>>  // the calls of `addRoute` with a well-formed path

    ghost function AllNodes(): set<Node>
      reads this`nodes
    {
      set m, p | m in nodes && p in nodes[m] :: nodes[m][p]
    }

    ghost predicate Valid()
      reads this`trees, this`nodes, AllNodes()
    {
      && trees.Keys == nodes.Keys
      && forall m :: m in nodes ==> TreeOk(m, nodes[m]) && [] in nodes[m] && nodes[m][[]] == trees[m]
    }

    /** The value of a method's tree; `NO_TREE` if the method has none yet. */
    ghost function Tree(m: string): (t: Trie)
      reads this`nodes, AllNodes()
    {
      if m in nodes then TrieOf(nodes[m]) else NO_TREE
    }

    ghost function Calls(m: string): seq<Registration>
      reads this`calls
    {
      if m in calls then calls[m] else []
    }

    /** Every tree is what the run of the calls for its method leads to. */
    ghost predicate Recorded()
      reads this, AllNodes()
    {
      forall m :: Tree(m) == RunTo(Calls(m), |Calls(m)|)
    }

    constructor ()
      ensures Valid() && Recorded() && forall m :: Tree(m) == NO_TREE && Calls(m) == []
    {
      trees := map[];
      nodes := map[];
      calls := map[];
    }

    /** The root of a method's tree, made if the method is new. */
    method RootOf(m: string) returns (root: Node)
      requires Valid()
      modifies this`trees, this`nodes
      ensures Valid() && m in trees && m in nodes && root == trees[m]
      ensures Tree(m) == WithRoot(old(Tree(m)))
      ensures forall o :: o != m ==> Tree(o) == old(Tree(o))
      ensures forall o :: o in nodes && o != m ==> o in old(nodes) && nodes[o] == old(nodes)[o]
      ensures forall o :: o in old(nodes) ==> o in nodes && nodes[o] == old(nodes)[o]
      ensures m in nodes && m !in old(nodes) ==> fresh(nodes[m].Values)
    {
      hide TreeOk, TrieOf, WithRoot;
      if m !in trees {
        root := new Node("/", m, []);
        NewTree(root, m);
        trees := trees[m := root];
        nodes := nodes[m := OneNode(root)];
      } else {
        root := trees[m];
        RootStays(nodes[m]);
      }
    }

    /** The trees of the other methods are sound and share no node with the tree of `m`. */
    lemma BeforeAdding(m: string, ts: map<string, Trie>)
      requires Valid() && m in nodes && ts == map o | o in nodes :: Tree(o)
      ensures TreeOk(m, nodes[m]) && [] in nodes[m] && trees[m] == nodes[m][[]] && Tree(m) == TrieOf(nodes[m])
      ensures trees.Keys == nodes.Keys == ts.Keys
      ensures OthersOk(m, trees, nodes, ts, OtherNodes(m, nodes))
      ensures OtherNodes(m, nodes) !! nodes[m].Values
      ensures forall o :: Tree(o) == if o in ts then ts[o] else NO_TREE
    {
      hide TreeOk, TrieOf;
      forall o | o in nodes && o != m ensures nodes[o].Values !! nodes[m].Values {
        TreesApart(o, nodes[o], m, nodes[m]);
      }
    }

    lemma AfterAdding(m: string, all: map<string, Nodes>, us: Nodes, ts: map<string, Trie>, others: set<Node>)
      requires OthersOk(m, trees, all, ts, others) && nodes == all[m := us] && m in all
      requires trees.Keys == all.Keys == ts.Keys
      requires TreeOk(m, us) && [] in us && us[[]] == trees[m]
      ensures Valid() && Tree(m) == TrieOf(us)
      ensures forall o :: o != m ==> Tree(o) == if o in ts then ts[o] else NO_TREE
    {
      hide TreeOk, TrieOf;
    }

    /** The rest of `addRoute`, once the root is there. */
    method AddBelow(root: Node, m: string, c: Registration) returns (ok: bool)
      requires Valid() && m in nodes && trees[m] == root && WithRoot(Tree(m)) == Tree(m)
      modifies this`nodes, nodes[m].Values
      ensures Valid()
      ensures RouteTrie.AddRoute(old(Tree(m)), c) == (Tree(m), ok)
      ensures forall o :: o != m ==> Tree(o) == old(Tree(o))
    {
      hide TreeOk, TrieOf, WithRoot, RouteTrie.AddRoute, Tree, AllNodes, OthersOk, Valid, Grown;
      ghost var all, ns, us := nodes, nodes[m], nodes[m];
      ghost var ts := map o | o in nodes :: Tree(o);
      ghost var others: set<Node> := set o, p | o in nodes && o != m && p in nodes[o] :: nodes[o][p];
      assert others == OtherNodes(m, nodes);
      BeforeAdding(m, ts);
      ok, us := AddInTree(root, c, m, ns);
      GrownRoot(ns, us);
      nodes := all[m := us];
      AfterAdding(m, all, us, ts, others);
    }

    lemma NodesOf(m: string)
      requires m in nodes
      ensures nodes[m].Values <= AllNodes()
    {
    }

    /** `addRoute`; `ok` is false if it panics. What it leaves is the next state of the run of
        calls for the method, also then; the other methods' trees stay. */
    method AddRoute(m: string, path: string, handler: Option<Handler>, ms: seq<Middleware>) returns (ok: bool)
      requires Valid() && Recorded()
      modifies this, AllNodes()
      ensures Valid() && Recorded()
      ensures !RightFormat(path) ==> !ok && calls == old(calls)
      ensures RightFormat(path) ==>
        calls == old(calls)[m := old(Calls(m)) + [Registration(path, SegsOf(path), handler, ms)]]
      ensures RightFormat(path) ==> (ok <==> Accepted(Calls(m), |old(Calls(m))|))
    {
      hide Valid, AllNodes, TrieOf, WithRoot, RouteTrie.AddRoute, SegsOf, RunTo, Tree;
      if path == "" || path[0] != '/' || (path != "/" && path[|path| - 1] == '/') {
        return false;
      }
      var c := Registration(path, SegsOf(path), handler, ms);
      RootTwice(Tree(m), c);
      if m in nodes {
        NodesOf(m);
      }
      NextCall(Calls(m), c);
      var root := RootOf(m);
      ok := AddBelow(root, m, c);
      Record(m, c);
    }

    ghost method Record(m: string, c: Registration)
      requires Valid()
      modifies this`calls
      ensures Valid() && calls == old(calls)[m := old(Calls(m)) + [c]]
      ensures forall o :: Tree(o) == old(Tree(o))
    {
      hide TreeOk, TrieOf;
      calls := calls[m := Calls(m) + [c]];
    }

    /** `findRoute`. It goes to the node that the greedy lookup ends at, with the path parameters
        on the way, and fails iff that lookup gets stuck. `q` is the node's path. */
    method FindRoute(m: string, path: string) returns (r: Option<MatchInfo>, ghost q: Path)
      requires Valid()
      ensures m !in trees ==> r == None
      ensures m in trees && path == "/" ==>
        r == Some(MatchInfo(trees[m], map[], Lookup(Tree(m), []).mdls))
      ensures m in trees && path != "/" ==>
        var req := RequestSegs(path);
        && Greedy(Tree(m), req, q)
        && (r == None ==> |q| < |req| && forall u :: !Chosen(Tree(m), q, req[|q|], u))
        && (r != None ==>
            && |q| == |req| && q in nodes[m]
            && r.value == MatchInfo(nodes[m][q], ParamsTo(q, req, |req|, AfterColon), SearchMdls(Tree(m), req)))
    {
      hide TreeOk, TrieOf, Split, Greedy, SearchMdls;
      q := [];
      if m !in trees {
        return None, q;
      }
      var root := trees[m];
      if path == "/" {
        RootHolds(m, nodes[m]);
        return Some(MatchInfo(root, map[], root.mdls)), q;
      }
      var segs := RequestSegs(path);
      var n: Node?, params: map<string, string>;
      n, params, q := Descend(root, segs, m, nodes[m]);
      if n == null {
        return None, q;
      }
      var mdls := FindMdls(root, segs, m, nodes[m]);
      return Some(MatchInfo(n, params, mdls)), q;
    }
  }

  lemma NextCall(calls: seq<Registration>, c: Registration)
    ensures var all := calls + [c];
      && RunTo(all, |calls|) == RunTo(calls, |calls|)
      && RunTo(all, |all|) == RouteTrie.AddRoute(RunTo(calls, |calls|), c).0
      && Accepted(all, |calls|) == RouteTrie.AddRoute(RunTo(calls, |calls|), c).1
  {
    hide RouteTrie.AddRoute;
    SameRun(calls, c, |calls|);
  }

  lemma {:induction false} SameRun(calls: seq<Registration>, c: Registration, n: nat)
    requires n <= |calls|
    ensures RunTo(calls + [c], n) == RunTo(calls, n)
  {
    hide RouteTrie.AddRoute;
    if n > 0 {
      SameRun(calls, c, n - 1);
    }
  }

  datatype MatchInfo = MatchInfo(n: Node, pathParams: map<string, string>, mdls: seq<Middleware>)

  lemma RootHolds(m: string, ns: Nodes)
    requires [] in ns
    ensures Lookup(TrieOf(ns), []) == ns[[]].Holds()
  {
  }

  ghost function OtherNodes(m: string, ns: map<string, Nodes>): set<Node>
  {
    set o, p | o in ns && o != m && p in ns[o] :: ns[o][p]
  }

  ghost predicate OthersOk(m: string, trees: map<string, Node>, ns: map<string, Nodes>, ts: map<string, Trie>,
                           others: set<Node>)
    reads others
  {
    forall o :: o in ns && o != m ==>
      && o in trees && o in ts && ns[o].Values <= others
      && TreeOk(o, ns[o]) && [] in ns[o] && ns[o][[]] == trees[o] && TrieOf(ns[o]) == ts[o]
  }

  /** No node is in the trees of two methods. */
  lemma TreesApart(o: string, ns: Nodes, m: string, us: Nodes)
    requires o != m && TreeOk(o, ns) && TreeOk(m, us)
    ensures ns.Values !! us.Values
  {
    hide WellFormed, Links;
    forall p, q | p in ns && q in us ensures ns[p] != us[q] {
      assert ns[p].Linked(o, p, ns) && us[q].Linked(m, q, us);
    }
  }

  lemma GrownRoot(ns: Nodes, us: Nodes)
    requires Grown(ns, us) && [] in ns
    ensures [] in us && us[[]] == ns[[]]
  {
  }

  lemma RootStays(ns: Nodes)
    requires [] in ns
    ensures WithRoot(TrieOf(ns)) == TrieOf(ns)
  {
  }

  lemma RootTwice(t: Trie, c: Registration)
    ensures WithRoot(WithRoot(t)) == WithRoot(t)
    ensures RouteTrie.AddRoute(WithRoot(t), c) == RouteTrie.AddRoute(t, c)
  {
    hide Walk;
  }

  lemma NewTree(root: Node, m: string)
    requires root.owner == m && root.at == [] && root.path == "/" && root.Holds() == EMPTY_INFO
    requires root.children == map[] && root.starChild == null && root.paramChild == null
    ensures TreeOk(m, OneNode(root)) && TrieOf(OneNode(root)) == WithRoot(NO_TREE)
    ensures [] in OneNode(root) && OneNode(root)[[]] == root
  {
    SingleRoot();
    assert TrieOf(OneNode(root)) == WithRoot(NO_TREE);
  }
}
