/** The tree of web/homework1/route.go as it runs, for one HTTP method. */
module RouteV1Tree {
  import opened Wrappers
  import opened RouteTrie
  import opened RoutePath
  import opened RouteV1
  import RouteMatch

  /** nodeTypeStatic, nodeTypeReg, nodeTypeParam, nodeTypeAny. */
  datatype NodeType = Static | Reg | Parameter | Any

  /** The slot that a segment belongs in. */
  function TypeOf(s: string): NodeType
  {
    if Star(s) then Any else if Regex(s) then Reg else if Param(s) then Parameter else Static
  }

  type Nodes = map<Path, Node>

  class Node {
    const typ: NodeType
    const path: string
    const paramName: string
    const regExpr: string
    var children: map<string, Node>
    var handler: Option<Handler>
    var starChild: Node?
    var paramChild: Node?
    var regChild: Node?
    ghost const at: Path  // the segments from the root down to it

    constructor (typ: NodeType, path: string, paramName: string, regExpr: string, ghost at: Path)
      ensures this.typ == typ && this.path == path && this.paramName == paramName && this.regExpr == regExpr
      ensures this.at == at && children == map[] && handler == None
      ensures starChild == null && paramChild == null && regChild == null
    {
      this.typ, this.path, this.paramName, this.regExpr, this.at := typ, path, paramName, regExpr, at;
      children := map[];
      handler := None;
      starChild, paramChild, regChild := null, null, null;
    }

    ghost function Holds(): Info
      reads this
    {
      Info(handler, [], "")
    }

    /** The node's constant fields are those of a node for the segment `s`. */
    ghost predicate Fits(s: string)
    {
      && typ == TypeOf(s) && path == s
      && (Param(s) ==> paramName == NameOf(s))
      && (Regex(s) ==> regExpr == ParseRegex(s).1)
    }

    /** The node is the one of `p` among `ns`, in the slot its segment belongs in, and its links
        are those to the children it has there. */
    ghost predicate Linked(p: Path, ns: Nodes)
      reads this
    {
      && at == p
      && (if p == [] then typ == Static && path == "/" else Fits(p[|p| - 1]))
      && Links(starChild, paramChild, regChild, children, p, ns)
    }

    // -------------------------------------------------------------- lookup

    /** `childOf`. */
    method ChildOf(e: Engine, seg: string, ghost p: Path, ghost ns: Nodes)
      returns (c: Node?, matchParam: bool, ok: bool, ghost s: string)
      requires Linked(p, ns) && WellFormed(TrieOf(ns))
      ensures !ok ==> forall u :: !Chosen(e, TrieOf(ns), p, seg, u)
      ensures ok ==> Chosen(e, TrieOf(ns), p, seg, s) && p + [s] in ns && c == ns[p + [s]]
      ensures ok ==> (matchParam <==> Param(s))
    {
      TrieKeys(ns);
      hide WellFormed;
      if seg in children {
        return children[seg], false, true, seg;
      }
      if regChild != null {
        OnlyWild(p, regChild.path, ns);
        var matched := e.matches(regChild.regExpr, seg);
        return regChild, true, matched, regChild.path;
      }
      if paramChild != null {
        OnlyWild(p, paramChild.path, ns);
        return paramChild, true, true, paramChild.path;
      }
      return starChild, false, starChild != null, "*";
    }

    // -------------------------------------------------------------- registration

    /** `childOrCreate`: the child for a segment, made if it is not there; nothing, if the segment's
        expression does not compile or another child is in the way. */
    method ChildOrCreate(e: Engine, s: string, ghost p: Path, ghost ns: Nodes)
      returns (r: Option<Node>, ghost us: Nodes)
      requires TreeOk(ns) && p in ns && ns[p] == this && s != ""
      modifies this
      ensures Bad(e, s) ==> r == None && us == ns && TreeOk(ns) && TrieOf(ns) == old(TrieOf(ns))
      ensures !Bad(e, s) ==> Extended(s, p, ns, us, r, old(TrieOf(ns)))
      ensures forall q :: q in us && q !in ns ==> fresh(us[q])
    {
      hide TreeOk, Extended, TrieOf;
      if s == "*" {
        r, us := StarChildOrCreate(p, ns);
      } else if Regex(s) {
        if !e.compiles(ParseRegex(s).1) {
          return None, ns;
        }
        r, us := RegexChildOrCreate(s, p, ns);
      } else if s[0] == ':' {
        r, us := ParamChildOrCreate(s, p, ns);
      } else {
        r, us := StaticChildOrCreate(s, p, ns);
      }
    }

    method StarChildOrCreate(ghost p: Path, ghost ns: Nodes) returns (r: Option<Node>, ghost us: Nodes)
      requires TreeOk(ns) && p in ns && ns[p] == this
      modifies this
      ensures Extended("*", p, ns, us, r, old(TrieOf(ns)))
      ensures forall q :: q in us && q !in ns ==> fresh(us[q])
    {
      hide TreeOk, Extended, Links, Clash, TrieOf;
      us := ns;
      BeforeChild("*", p, ns);
      if paramChild != null || regChild != null {
        return None, us;
      }
      if starChild == null {
        ghost var t := TrieOf(ns);
        var child := new Node(Any, "*", "", "", p + ["*"]);
        us := ns[p + ["*"] := child];
        LinksWith(child, "*", p, ns);
        starChild := child;
        AfterChild(child, "*", p, ns, us, t);
      }
      return Some(starChild), us;
    }

    method RegexChildOrCreate(s: string, ghost p: Path, ghost ns: Nodes) returns (r: Option<Node>, ghost us: Nodes)
      requires TreeOk(ns) && p in ns && ns[p] == this && Regex(s)
      modifies this
      ensures Extended(s, p, ns, us, r, old(TrieOf(ns)))
      ensures forall q :: q in us && q !in ns ==> fresh(us[q])
    {
      hide TreeOk, Extended, Links, Clash, TrieOf;
      us := ns;
      BeforeChild(s, p, ns);
      if starChild != null || paramChild != null || (regChild != null && regChild.path != s) {
        return None, us;
      }
      if regChild == null {
        ghost var t := TrieOf(ns);
        var child := new Node(Reg, s, ParseRegex(s).0, ParseRegex(s).1, p + [s]);
        us := ns[p + [s] := child];
        LinksWith(child, s, p, ns);
        regChild := child;
        AfterChild(child, s, p, ns, us, t);
      }
      return Some(regChild), us;
    }

    method ParamChildOrCreate(s: string, ghost p: Path, ghost ns: Nodes) returns (r: Option<Node>, ghost us: Nodes)
      requires TreeOk(ns) && p in ns && ns[p] == this && Param(s) && !Regex(s)
      modifies this
      ensures Extended(s, p, ns, us, r, old(TrieOf(ns)))
      ensures forall q :: q in us && q !in ns ==> fresh(us[q])
    {
      hide TreeOk, Extended, Links, Clash, TrieOf;
      us := ns;
      BeforeChild(s, p, ns);
      if starChild != null || regChild != null || (paramChild != null && paramChild.path != s) {
        return None, us;
      }
      if paramChild == null {
        ghost var t := TrieOf(ns);
        var child := new Node(Parameter, s, s[1..], "", p + [s]);
        us := ns[p + [s] := child];
        LinksWith(child, s, p, ns);
        paramChild := child;
        AfterChild(child, s, p, ns, us, t);
      }
      return Some(paramChild), us;
    }

    method StaticChildOrCreate(s: string, ghost p: Path, ghost ns: Nodes) returns (r: Option<Node>, ghost us: Nodes)
      requires TreeOk(ns) && p in ns && ns[p] == this && s != "" && !Wild(s)
      modifies this
      ensures Extended(s, p, ns, us, r, old(TrieOf(ns)))
      ensures forall q :: q in us && q !in ns ==> fresh(us[q])
    {
      hide TreeOk, Extended, Links, Clash, TrieOf;
      us := ns;
      BeforeChild(s, p, ns);
      if s !in children {
        ghost var t := TrieOf(ns);
        var child := new Node(Static, s, "", "", p + [s]);
        us := ns[p + [s] := child];
        LinksWith(child, s, p, ns);
        children := children[s := child];
        AfterChild(child, s, p, ns, us, t);
      }
      return Some(children[s]), us;
    }

    /** The child that the fields have for a segment. */
    ghost function Slot(s: string): Node?
      reads this
    {
      if Star(s) then starChild
      else if Regex(s) then (if regChild != null && regChild.path == s then regChild else null)
      else if Param(s) then (if paramChild != null && paramChild.path == s then paramChild else null)
      else if s in children then children[s] else null
    }

    /** A child that stands in the way of a segment. */
    ghost predicate InTheWay(s: string)
      reads this
    {
      && Wild(s)
      && (|| (starChild != null && !Star(s))
          || (paramChild != null && paramChild.path != s)
          || (regChild != null && regChild.path != s))
    }

    /** What the fields of a node say about the children it has. */
    lemma BeforeChild(s: string, p: Path, ns: Nodes)
      requires TreeOk(ns) && p in ns && ns[p] == this && s != ""
      ensures at == p && (if p == [] then typ == Static && path == "/" else Fits(p[|p| - 1]))
      ensures Links(starChild, paramChild, regChild, children, p, ns)
      ensures [] in ns && WellFormed(TrieOf(ns)) && TrieOf(ns).Keys == ns.Keys
      ensures forall q :: q in ns ==> ns[q].at == q && ns[q].Linked(q, ns) && ns[q].Holds() == TrieOf(ns)[q]
      ensures paramChild != null ==> Param(paramChild.path) && !Regex(paramChild.path)
      ensures regChild != null ==> Regex(regChild.path)
      ensures InTheWay(s) ==> Extended(s, p, ns, ns, None, TrieOf(ns))
      ensures !InTheWay(s) && Slot(s) != null ==> Extended(s, p, ns, ns, Some(Slot(s)), TrieOf(ns))
      ensures !InTheWay(s) && Slot(s) == null ==> p + [s] !in ns && !Clash(TrieOf(ns), p, s)
      ensures TreeOk(ns)
    {
      hide WellFormed, Links, InTheWay, Slot;
      TrieKeys(ns);
      assert Linked(p, ns);
      SlotsFit(p, ns);
      WayIsClash(s, p, ns);
    }

    lemma SlotsFit(p: Path, ns: Nodes)
      requires Links(starChild, paramChild, regChild, children, p, ns)
      ensures paramChild != null ==> Param(paramChild.path) && !Regex(paramChild.path)
      ensures regChild != null ==> Regex(regChild.path)
    {
    }

    lemma WayIsClash(s: string, p: Path, ns: Nodes)
      requires Links(starChild, paramChild, regChild, children, p, ns) && TrieOf(ns).Keys == ns.Keys
      ensures InTheWay(s) <==> Clash(TrieOf(ns), p, s)
      ensures !InTheWay(s) ==> (Slot(s) != null <==> p + [s] in ns)
      ensures Slot(s) != null ==> p + [s] in ns && ns[p + [s]] == Slot(s)
    {
      if InTheWay(s) {
        var o := if starChild != null && !Star(s) then "*"
          else if paramChild != null && paramChild.path != s then paramChild.path else regChild.path;
        assert Wild(o) && o != s && p + [o] in TrieOf(ns);
      }
    }

    /** The links with one more child. */
    lemma LinksWith(c: Node, s: string, p: Path, ns: Nodes)
      requires Links(starChild, paramChild, regChild, children, p, ns) && p + [s] !in ns
      requires c.Fits(s) && s != "" && !InTheWay(s)
      ensures var us := ns[p + [s] := c];
        && (Star(s) ==> Links(c, paramChild, regChild, children, p, us))
        && (Regex(s) ==> Links(starChild, paramChild, c, children, p, us))
        && (Param(s) && !Regex(s) ==> Links(starChild, c, regChild, children, p, us))
        && (!Wild(s) ==> Links(starChild, paramChild, regChild, children[s := c], p, us))
    {
      OneMore(p, s, ns, c);
    }

    lemma AfterChild(c: Node, s: string, p: Path, ns: Nodes, us: Nodes, t: Trie)
      requires [] in ns && p in ns && ns[p] == this && p + [s] !in ns && us == ns[p + [s] := c]
      requires WellFormed(t) && t.Keys == ns.Keys && s != "" && !Clash(t, p, s)
      requires forall q :: q in ns ==> ns[q].at == q && ns[q].Holds() == t[q]
      requires forall q :: q in ns && q != p ==> ns[q].Linked(q, ns)
      requires Linked(p, us)
      requires c.at == p + [s] && c.Fits(s) && c.Holds() == EMPTY_INFO
      requires c.children == map[] && c.starChild == null && c.paramChild == null && c.regChild == null
      ensures Extended(s, p, ns, us, Some(c), t)
    {
      hide WellFormed, Clash, Linked;
      TrieKeys(us);
      var u := TrieOf(us);
      assert u == t[p + [s] := EMPTY_INFO];
      AddNodeKeepsWellFormed(t, p, s, u);
      forall q | q in us ensures us[q].Linked(q, us) {
        if q == p + [s] {
          c.LinkedLeaf(p, s, ns, us, t);
        } else if q != p {
          ns[q].LinkedStill(c, q, p, s, ns);
        }
      }
    }

    lemma LinkedLeaf(p: Path, s: string, ns: Nodes, us: Nodes, t: Trie)
      requires WellFormed(t) && t.Keys == ns.Keys
      requires p + [s] !in ns && us == ns[p + [s] := this]
      requires at == p + [s] && Fits(s)
      requires children == map[] && starChild == null && paramChild == null && regChild == null
      ensures Linked(p + [s], us)
    {
      hide Fits;
      forall x ensures p + [s] + [x] !in us {
        assert |p + [s] + [x]| == |p| + 2;
        assert p + [s] + [x] in t ==> p + [s] in t;
      }
    }

    lemma LinkedStill(c: Node, q: Path, p: Path, s: string, ns: Nodes)
      requires Linked(q, ns) && q != p && p + [s] !in ns
      ensures Linked(q, ns[p + [s] := c])
    {
      hide Fits;
      forall x ensures q + [x] != p + [s] {
        SameChild(p, s, q, x);
      }
    }
  }

  lemma OneMore(p: Path, s: string, ns: Nodes, c: Node)
    ensures forall x :: x != s ==> (p + [x] in ns[p + [s] := c] <==> p + [x] in ns)
    ensures forall x :: x != s && p + [x] in ns ==> ns[p + [s] := c][p + [x]] == ns[p + [x]]
  {
    forall x | x != s ensures p + [x] != p + [s] {
      SameChild(p, s, p, x);
    }
  }

  /** A node's links are those to the children that `p` has among `ns`, each in its slot. */
  ghost predicate Links(star: Node?, param: Node?, reg: Node?, kids: map<string, Node>, p: Path, ns: Nodes)
  {
    && (star != null ==> star.Fits("*") && p + ["*"] in ns && ns[p + ["*"]] == star)
    && (p + ["*"] in ns ==> star != null)
    && (param != null ==> param.Fits(param.path) && Param(param.path) && !Regex(param.path))
    && (param != null ==> p + [param.path] in ns && ns[p + [param.path]] == param)
    && (forall s :: Param(s) && !Regex(s) && p + [s] in ns ==> param != null && param.path == s)
    && (reg != null ==> reg.Fits(reg.path) && Regex(reg.path) && p + [reg.path] in ns && ns[p + [reg.path]] == reg)
    && (forall s :: Regex(s) && p + [s] in ns ==> reg != null && reg.path == s)
    && (forall s :: s in kids ==> kids[s].Fits(s) && !Wild(s) && p + [s] in ns && ns[p + [s]] == kids[s])
    && (forall s :: !Wild(s) && p + [s] in ns ==> s in kids)
  }

  /** The value of a tree. */
  ghost function TrieOf(ns: Nodes): (t: Trie)
    reads ns.Values
  {
    map p | p in ns :: ns[p].Holds()
  }

  lemma TrieKeys(ns: Nodes)
    ensures forall p :: p in TrieOf(ns) <==> p in ns
  {
  }

  /** A wildcard, parameter or regular-expression child has no other beside it. */
  lemma OnlyWild(p: Path, s: string, ns: Nodes)
    requires WellFormed(TrieOf(ns)) && p + [s] in ns && Wild(s)
    ensures forall u :: Wild(u) && p + [u] in ns ==> u == s
  {
    hide WellFormed;
    TrieKeys(ns);
    forall u | Wild(u) && p + [u] in ns ensures u == s {
      RouteMatch.OneWildChild(TrieOf(ns), p, s, u);
    }
  }

  /** `ns` is a whole tree: every node is linked to its children, and the tree's value is well
      formed. */
  ghost predicate TreeOk(ns: Nodes)
    reads ns.Values
  {
    && [] in ns
    && WellFormed(TrieOf(ns))
    && forall p :: p in ns ==> ns[p].Linked(p, ns)
  }

  ghost predicate Grown(ns: Nodes, us: Nodes)
  {
    forall q :: q in ns ==> q in us && us[q] == ns[q]
  }

  /** What `childOrCreate` leaves: the tree `us`, in place of `ns` whose value was `t`. */
  ghost predicate Extended(s: string, p: Path, ns: Nodes, us: Nodes, r: Option<Node>, t: Trie)
    reads us.Values
  {
    && TreeOk(us) && Grown(ns, us)
    && match RouteTrie.ChildOrCreate(t, p, s)
       case None => r == None && us == ns && TrieOf(us) == t
       case Some(u) => r.Some? && p + [s] in us && r.value == us[p + [s]] && TrieOf(us) == u
  }

  /** A tree, node by node. */
  lemma TreeFacts(ns: Nodes)
    requires TreeOk(ns)
    ensures [] in ns && WellFormed(TrieOf(ns)) && TrieOf(ns).Keys == ns.Keys
    ensures forall q :: q in ns ==> ns[q].at == q && ns[q].Linked(q, ns) && ns[q].Holds() == TrieOf(ns)[q]
  {
    hide WellFormed, Links;
    TrieKeys(ns);
  }

  lemma FactsTree(ns: Nodes, t: Trie)
    requires [] in ns && WellFormed(t) && t.Keys == ns.Keys
    requires forall q :: q in ns ==> ns[q].Linked(q, ns) && ns[q].Holds() == t[q]
    ensures TreeOk(ns) && TrieOf(ns) == t
  {
    hide WellFormed, Links;
    TrieKeys(ns);
    assert TrieOf(ns) == t;
  }

  /** The node takes the handler, and nothing else changes. */
  method SetHandler(n: Node, handler: Option<Handler>, ghost p: Path, ghost ns: Nodes)
    requires TreeOk(ns) && p in ns && ns[p] == n
    modifies n
    ensures TreeOk(ns)
    ensures p in old(TrieOf(ns))
    ensures TrieOf(ns) == old(TrieOf(ns))[p := old(TrieOf(ns))[p].(handler := handler)]
  {
    hide TreeOk, TrieOf, Links;
    ghost var t := TrieOf(ns);
    TreeFacts(ns);
    n.handler := handler;
    SameNodesWellFormed(t, t[p := t[p].(handler := handler)]);
    FactsTree(ns, t[p := t[p].(handler := handler)]);
  }

  /** The loop of `handleSegmentRouter`: makes a node for every segment, or panics on the way. */
  method AddNodes(e: Engine, root: Node, segs: Path, ghost ns: Nodes) returns (r: Option<Node>, ghost us: Nodes)
    requires TreeOk(ns) && [] in ns && ns[[]] == root
    modifies ns.Values
    ensures TreeOk(us) && Grown(ns, us)
    ensures forall q :: q in us && q !in ns ==> fresh(us[q])
    ensures Walk(old(TrieOf(ns)), Checked(e, segs), 0) == (TrieOf(us), r.Some?)
    ensures r.Some? ==> segs in us && r.value == us[segs]
  {
    hide TreeOk, TrieOf, RouteTrie.ChildOrCreate, Bad;
    var cur := root;
    us := ns;
    ghost var t, cs := TrieOf(ns), Checked(e, segs);
    assert segs[..0] == [];
    for i := 0 to |segs|
      invariant TreeOk(us) && Grown(ns, us)
      invariant forall q :: q in us && q !in ns ==> fresh(us[q])
      invariant segs[..i] in us && us[segs[..i]] == cur && cs[..i] == segs[..i]
      invariant Walk(t, cs, 0) == Walk(TrieOf(us), cs, i)
    {
      if segs[i] == "" {
        return None, us;
      }
      var c: Option<Node>;
      c, us := cur.ChildOrCreate(e, segs[i], segs[..i], us);
      assert segs[..i] + [segs[i]] == segs[..i + 1];
      if c == None {
        return None, us;
      }
      cur := c.value;
    }
    assert segs[..|segs|] == segs;
    return Some(cur), us;
  }

  /** `addRoute` from the root on, for a path other than "/". */
  method AddInTree(e: Engine, root: Node, segs: Path, handler: Option<Handler>, ghost ns: Nodes)
    returns (ok: bool, ghost us: Nodes)
    requires TreeOk(ns) && [] in ns && ns[[]] == root && segs != []
    requires WithRoot(TrieOf(ns)) == TrieOf(ns)
    modifies ns.Values
    ensures TreeOk(us) && Grown(ns, us)
    ensures forall q :: q in us && q !in ns ==> fresh(us[q])
    ensures RouteV1.AddRoute(e, old(TrieOf(ns)), segs, handler) == (TrieOf(us), ok)
  {
    hide TreeOk, TrieOf, Walk, Checked;
    ghost var t := TrieOf(ns);
    var r: Option<Node>;
    r, us := AddNodes(e, root, segs, ns);
    TrieKeys(us);
    if r == None {
      return false, us;
    }
    var n := r.value;
    NodeAt(us, segs);
    if n.handler != None && n.path != "*" {
      return false, us;
    }
    SetHandler(n, handler, segs, us);
    return true, us;
  }

  lemma NodeAt(ns: Nodes, p: Path)
    requires TreeOk(ns) && p in ns
    ensures TrieOf(ns)[p] == ns[p].Holds()
    ensures p != [] ==> ns[p].Fits(p[|p| - 1])
    ensures p == [] ==> ns[p].typ == Static
  {
    hide WellFormed, Links;
    assert ns[p].Linked(p, ns);
  }

  ghost function OneNode(root: Node): Nodes
  {
    map[[] := root]
  }

  lemma NewTree(root: Node)
    requires root.at == [] && root.path == "/" && root.typ == Static && root.Holds() == EMPTY_INFO
    requires root.children == map[] && root.starChild == null && root.paramChild == null && root.regChild == null
    ensures TreeOk(OneNode(root)) && TrieOf(OneNode(root)) == WithRoot(NO_TREE)
    ensures [] in OneNode(root) && OneNode(root)[[]] == root
  {
    SingleRoot();
    assert TrieOf(OneNode(root)) == WithRoot(NO_TREE);
  }

  // ---------------------------------------------------------------- the router

  datatype MatchInfo = MatchInfo(n: Node, pathParams: map<string, string>)

  /** The loop of `findPathRoute`. */
  method Descend(e: Engine, root: Node, segs: seq<string>, ghost ns: Nodes)
    returns (r: Option<MatchInfo>, ghost q: Path)
    requires TreeOk(ns) && [] in ns && ns[[]] == root
    ensures Greedy(e, TrieOf(ns), segs, q)
    ensures r == None ==>
      |q| < |segs| && (q == [] || !Star(q[|q| - 1])) && forall u :: !Chosen(e, TrieOf(ns), q, segs[|q|], u)
    ensures r != None ==>
      Found(e, TrieOf(ns), segs, q) && q in ns && r.value == MatchInfo(ns[q], RouteMatch.ParamsTo(q, segs, |q|, NameOf))
  {
    hide TrieOf, TreeOk, WellFormed, Node.Linked, Chosen, Links, NameOf;
    TreeFacts(ns);
    var params := map[];
    q := [];
    var curNode := root;
    for i := 0 to |segs|
      invariant |q| == i && q in ns && curNode == ns[q]
      invariant Greedy(e, TrieOf(ns), segs, q)
      invariant params == RouteMatch.ParamsTo(q, segs, i, NameOf)
    {
      var prev := curNode;
      var c, matchParam, ok, s := prev.ChildOf(e, segs[i], q, ns);
      if !ok {
        NodeAt(ns, q);
        if prev.typ == Any {
          return Some(MatchInfo(prev, params)), q;
        }
        return None, q;
      }
      NodeAt(ns, q + [s]);
      GreedyNext(e, TrieOf(ns), segs, q, s);
      RouteMatch.ParamsNext(q, s, segs, NameOf);
      curNode := c;
      if matchParam {
        params := params[curNode.paramName := segs[i]];
      }
      q := q + [s];
    }
    return Some(MatchInfo(curNode, params)), q;
  }

  /** The tree of one HTTP method, with the calls made so far. */
  class Tree {
    const e: Engine
    var root: Node?
    ghost var nodes: Nodes
    ghost var calls: seq<Call>

    ghost predicate Valid()
      reads this, nodes.Values
    {
      && TrieOf(nodes) == RouteV1.RunTo(e, calls, |calls|)
      && if root == null then nodes == map[] else TreeOk(nodes) && [] in nodes && nodes[[]] == root
    }

    constructor (e: Engine)
      ensures Valid() && this.e == e && calls == [] && root == null
    {
      this.e := e;
      root := null;
      nodes := map[];
      calls := [];
      new;
      assert TrieOf(nodes) == NO_TREE;
    }

    /** `addRoute`; `ok` is false if it panics. What the call leaves is the next state of the run,
        also then. */
    method AddRoute(path: string, handler: Option<Handler>) returns (ok: bool)
      requires Valid()
      modifies this, nodes.Values
      ensures Valid()
      ensures !RightFormat(path) ==> !ok && calls == old(calls) && nodes == old(nodes)
      ensures RightFormat(path) ==> calls == old(calls) + [Call(SegsOf(path), handler)]
      ensures RightFormat(path) ==>
        ok == RouteV1.AddRoute(e, RouteV1.RunTo(e, old(calls), |old(calls)|), SegsOf(path), handler).1
      ensures Grown(old(nodes), nodes)
    {
      hide TreeOk, TrieOf, Walk, RouteV1.AddRoute, Split, RouteV1.RunTo;
      if path == "" || path[0] != '/' || (path != "/" && path[|path| - 1] == '/') {
        return false;
      }
      ghost var t := TrieOf(nodes);
      NextCall(e, calls, Call(SegsOf(path), handler));
      AddFromRoot(e, t, SegsOf(path), handler);
      calls := calls + [Call(SegsOf(path), handler)];
      ok := AddBelow(path, handler, t);
    }

    /** The root, made if there is none. */
    method MakeRoot()
      requires if root == null then nodes == map[] else TreeOk(nodes) && [] in nodes && nodes[[]] == root
      modifies this`root, this`nodes
      ensures root != null && TreeOk(nodes) && [] in nodes && nodes[[]] == root
      ensures TrieOf(nodes) == WithRoot(old(TrieOf(nodes)))
      ensures Grown(old(nodes), nodes)
      ensures forall q :: q in nodes && q !in old(nodes) ==> fresh(nodes[q])
    {
      hide TreeOk, TrieOf;
      TrieKeys(nodes);
      if root == null {
        NoNodes();
        root := new Node(Static, "/", "", "", []);
        NewTree(root);
        nodes := OneNode(root);
      }
    }

    method AddBelow(path: string, handler: Option<Handler>, ghost t: Trie) returns (ok: bool)
      requires if root == null then nodes == map[] else TreeOk(nodes) && [] in nodes && nodes[[]] == root
      requires TrieOf(nodes) == t && RightFormat(path)
      modifies this`root, this`nodes, nodes.Values
      ensures root != null && TreeOk(nodes) && [] in nodes && nodes[[]] == root
      ensures (TrieOf(nodes), ok) == RouteV1.AddRoute(e, t, SegsOf(path), handler)
      ensures Grown(old(nodes), nodes)
    {
      hide TreeOk, TrieOf, Walk, RouteV1.AddRoute, Split;
      AddFromRoot(e, t, SegsOf(path), handler);
      MakeRoot();
      if path == "/" {
        NodeAt(nodes, []);
        if root.handler != None {
          return false;
        }
        SetHandler(root, handler, [], nodes);
        return true;
      }
      ok, nodes := AddInTree(e, root, SegsOf(path), handler, nodes);
    }

    /** `findRoute`. A node found is the one the lookup ends at, with the path parameters on the
        way; if none is found, there is none to end at. */
    method FindRoute(path: string) returns (r: Option<MatchInfo>, ghost q: Path)
      requires Valid()
      ensures root == null ==> r == None
      ensures root != null && path == "/" ==> r == Some(MatchInfo(root, map[]))
      ensures root != null && path != "/" ==>
        var t, req := RouteV1.RunTo(e, calls, |calls|), RequestSegs(path);
        && (r == None ==> forall p :: !Found(e, t, req, p))
        && (r != None ==> Found(e, t, req, q) && q in nodes)
        && (r != None ==> r.value == MatchInfo(nodes[q], RouteMatch.ParamsTo(q, req, |q|, NameOf)))
    {
      hide TreeOk, TrieOf, RequestSegs, RouteV1.RunTo, Found, Greedy, WellFormed, Chosen;
      q := [];
      if root == null {
        return None, q;
      }
      if path == "/" {
        return Some(MatchInfo(root, map[])), q;
      }
      r, q := Descend(e, root, RequestSegs(path), nodes);
      TreeFacts(nodes);
      if r == None {
        forall p ensures !Found(e, TrieOf(nodes), RequestSegs(path), p) {
          RouteV1.StuckIsLost(e, TrieOf(nodes), RequestSegs(path), q, p);
        }
      }
    }
  }

  lemma NoNodes()
    ensures TrieOf(map[]) == NO_TREE
  {
  }

  lemma AddFromRoot(e: Engine, t: Trie, segs: Path, handler: Option<Handler>)
    ensures RouteV1.AddRoute(e, WithRoot(t), segs, handler) == RouteV1.AddRoute(e, t, segs, handler)
    ensures WithRoot(WithRoot(t)) == WithRoot(t)
    ensures [] in t ==> WithRoot(t) == t
    ensures segs == [] ==> (
      var u := WithRoot(t);
      RouteV1.AddRoute(e, t, segs, handler) ==
        if u[[]].handler != None then (u, false) else (u[[] := u[[]].(handler := handler)], true))
  {
    hide Checked;
    if segs == [] {
      assert Checked(e, segs) == [];
    }
  }

  lemma NextCall(e: Engine, calls: seq<Call>, c: Call)
    ensures RouteV1.RunTo(e, calls + [c], |calls| + 1) ==
      RouteV1.AddRoute(e, RouteV1.RunTo(e, calls, |calls|), c.segs, c.handler).0
  {
    hide RouteV1.AddRoute;
    SameRun(e, calls, c, |calls|);
  }

  lemma {:induction false} SameRun(e: Engine, calls: seq<Call>, c: Call, n: nat)
    requires n <= |calls|
    ensures RouteV1.RunTo(e, calls + [c], n) == RouteV1.RunTo(e, calls, n)
  {
    hide RouteV1.AddRoute;
    if n > 0 {
      SameRun(e, calls, c, n - 1);
    }
  }
}
