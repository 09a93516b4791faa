/** What the expression printer of orm/homework3/builder.go writes, token by token, and why it
    can only be read one way. */
module SqlGrammar {

  /** An expression over operands `L` that the printer does not look into: columns, aggregates,
      values, raw text and subqueries. `Binary` is each of MathExpr, Predicate and binaryExpr,
      which the printer treats alike; `Nil` is a missing side, and the operator may be "". */
  datatype Expr<L> = Nil | Leaf(leaf: L) | Binary(left: Expr<L>, op: string, right: Expr<L>)

  datatype Tok<L> = Open | Close | Space | Op(op: string) | Atom(leaf: L)

  /** What `buildExpression` writes. */
  function Tokens<L>(e: Expr<L>): (ts: seq<Tok<L>>)
    decreases e, 0
  {
    match e
    case Nil => []
    case Leaf(l) => [Atom(l)]
    case Binary(l, op, r) =>
      OperandTokens(l)
      + (if op == "" then [] else [Space, Op(op)])
      + (if r.Nil? then [] else [Space] + OperandTokens(r))
  }

  /** What `buildSubExpr` writes: a nested expression goes in parentheses. */
  function OperandTokens<L>(e: Expr<L>): (ts: seq<Tok<L>>)
    decreases e, 1
  {
    if e.Binary? then [Open] + Tokens(e) + [Close] else Tokens(e)
  }

  /** The shapes that the constructors of predicates and of arithmetic can build: two operands,
      one after a prefix operator, or raw text made a predicate. */
  predicate FromApi<L>(e: Expr<L>)
  {
    match e
    case Nil => false
    case Leaf(_) => true
    case Binary(l, op, r) =>
      if op == "" then FromApi(l) && r.Nil? else (l.Nil? || FromApi(l)) && FromApi(r)
  }

  // ---------------------------------------------------------------- the grammar

  /** A reading of a token sequence. There is no precedence and no associativity: any operator
      may stand before an operand or between two, and operands may be anything. */
  datatype Reading<L> =
    | RAtom(leaf: L)
    | RParen(inner: Reading<L>)
    | RPrefix(op: string, arg: Reading<L>)
    | RInfix(left: Reading<L>, op: string, right: Reading<L>)

  function Yield<L>(p: Reading<L>): (ts: seq<Tok<L>>)
  {
    match p
    case RAtom(l) => [Atom(l)]
    case RParen(q) => [Open] + Yield(q) + [Close]
    case RPrefix(op, q) => [Op(op)] + Yield(q)
    case RInfix(a, op, b) => Yield(a) + [Op(op)] + Yield(b)
  }

  /** A valuation of operands, and what the operators mean. */
  datatype Meaning<!L, !V> = Meaning(leaf: L -> V, prefix: (string, V) -> V, infix: (string, V, V) -> V)

  function Eval<L, V>(m: Meaning<L, V>, e: Expr<L>): V
    requires FromApi(e)
  {
    match e
    case Leaf(l) => m.leaf(l)
    case Binary(l, op, r) =>
      if op == "" then Eval(m, l)
      else if l.Nil? then m.prefix(op, Eval(m, r))
      else m.infix(op, Eval(m, l), Eval(m, r))
  }

  function EvalReading<L, V>(m: Meaning<L, V>, p: Reading<L>): V
  {
    match p
    case RAtom(l) => m.leaf(l)
    case RParen(q) => EvalReading(m, q)
    case RPrefix(op, q) => m.prefix(op, EvalReading(m, q))
    case RInfix(a, op, b) => m.infix(op, EvalReading(m, a), EvalReading(m, b))
  }

  // ---------------------------------------------------------------- tokens without spaces

  function Visible<L>(ts: seq<Tok<L>>): (r: seq<Tok<L>>)
  {
    if |ts| == 0 then [] else (if ts[0].Space? then [] else [ts[0]]) + Visible(ts[1..])
  }

  function Inner<L>(e: Expr<L>): (ts: seq<Tok<L>>)
    requires FromApi(e)
    decreases e, 0
  {
    match e
    case Leaf(l) => [Atom(l)]
    case Binary(l, op, r) =>
      if op == "" then Outer(l)
      else if l.Nil? then [Op(op)] + Outer(r)
      else Outer(l) + [Op(op)] + Outer(r)
  }

  function Outer<L>(e: Expr<L>): (ts: seq<Tok<L>>)
    requires FromApi(e)
    decreases e, 1
  {
    if e.Binary? then [Open] + Inner(e) + [Close] else Inner(e)
  }

  lemma {:induction false} VisibleAppend<L>(a: seq<Tok<L>>, b: seq<Tok<L>>)
    ensures Visible(a + b) == Visible(a) + Visible(b)
  {
    if |a| == 0 {
      assert a + b == b;
    } else {
      assert (a + b)[1..] == a[1..] + b;
      VisibleAppend(a[1..], b);
    }
  }

  lemma VisibleOne<L>(t: Tok<L>)
    ensures Visible([t]) == if t.Space? then [] else [t]
  {
  }

  lemma {:induction false} VisibleTokens<L>(e: Expr<L>)
    requires FromApi(e)
    ensures Visible(Tokens(e)) == Inner(e) && Visible(OperandTokens(e)) == Outer(e)
  {
    hide Visible;
    match e
    case Leaf(l) =>
      VisibleOne(Atom(l));
    case Binary(l, op, r) =>
      var a: seq<Tok<L>> := if op == "" then [] else [Space, Op(op)];
      var b: seq<Tok<L>> := if r.Nil? then [] else [Space] + OperandTokens(r);
      VisibleEmpty<L>();
      if !l.Nil? {
        VisibleTokens(l);
      }
      if !r.Nil? {
        VisibleTokens(r);
        VisibleOne<L>(Space);
        VisibleAppend([Space], OperandTokens(r));
      }
      if op != "" {
        VisibleOne<L>(Space);
        VisibleOne<L>(Op(op));
        VisibleAppend<L>([Space], [Op(op)]);
        assert [Space] + [Op(op)] == a;
      }
      VisibleAppend(OperandTokens(l), a);
      VisibleAppend(OperandTokens(l) + a, b);
      assert Visible(Tokens(e)) == Inner(e);
      VisibleOne<L>(Open);
      VisibleOne<L>(Close);
      VisibleAppend([Open], Tokens(e));
      VisibleAppend([Open] + Tokens(e), [Close]);
  }

  lemma VisibleEmpty<L>()
    ensures Visible<L>([]) == []
  {
  }

  // ---------------------------------------------------------------- depth

  /** How many parentheses are open after the first `n` tokens. */
  function Depth<L>(ts: seq<Tok<L>>, n: nat): int
    requires n <= |ts|
  {
    if n == 0 then 0 else
    Depth(ts, n - 1) + (match ts[n - 1] case Open => 1 case Close => -1 case _ => 0)
  }

  lemma {:induction false} DepthAppend<L>(a: seq<Tok<L>>, b: seq<Tok<L>>, n: nat)
    requires n <= |a| + |b|
    ensures Depth(a + b, n) == if n <= |a| then Depth(a, n) else Depth(a, |a|) + Depth(b, n - |a|)
  {
    if n > 0 {
      DepthAppend(a, b, n - 1);
    }
  }

  predicate Balanced<L>(ts: seq<Tok<L>>)
  {
    Depth(ts, |ts|) == 0 && forall n :: 0 <= n <= |ts| ==> Depth(ts, n) >= 0
  }

  /** An operator outside all parentheses. */
  predicate TopOp<L>(ts: seq<Tok<L>>, k: nat)
  {
    k < |ts| && ts[k].Op? && Depth(ts, k) == 0
  }

  predicate NoTopOp<L>(ts: seq<Tok<L>>)
  {
    forall k :: 0 <= k < |ts| ==> !TopOp(ts, k)
  }

  lemma BalancedAppend<L>(a: seq<Tok<L>>, b: seq<Tok<L>>)
    requires Balanced(a) && Balanced(b)
    ensures Balanced(a + b)
    ensures forall k :: 0 <= k < |a| + |b| ==> (TopOp(a + b, k) <==> if k < |a| then TopOp(a, k) else TopOp(b, k - |a|))
  {
    hide Depth;
    forall n | 0 <= n <= |a| + |b|
      ensures Depth(a + b, n) == if n <= |a| then Depth(a, n) else Depth(b, n - |a|)
    {
      DepthAppend(a, b, n);
    }
    DepthStart(b);
  }

  lemma DepthStart<L>(b: seq<Tok<L>>)
    ensures Depth(b, 0) == 0
  {
  }

  lemma BalancedOne<L>(t: Tok<L>)
    requires !t.Open? && !t.Close?
    ensures Balanced([t]) && (TopOp([t], 0) <==> t.Op?)
  {
    assert Depth([t], 1) == 0;
  }

  lemma BalancedParens<L>(a: seq<Tok<L>>)
    requires Balanced(a)
    ensures Balanced([Open] + a + [Close]) && NoTopOp([Open] + a + [Close])
  {
    hide Depth;
    var open: seq<Tok<L>>, close: seq<Tok<L>> := [Open], [Close];
    var ts := open + a + close;
    OpenDepth<L>();
    DepthStart(a);
    forall n | 0 <= n <= |ts|
      ensures Depth(ts, n) == if 1 <= n <= |a| + 1 then 1 + Depth(a, n - 1) else 0
    {
      DepthAppend(open + a, close, n);
      DepthAppend(open, a, |a| + 1);
      if n <= |a| + 1 {
        DepthAppend(open, a, n);
      }
    }
  }

  lemma OpenDepth<L>()
    ensures Depth<L>([Open], 0) == 0 && Depth<L>([Open], 1) == 1
    ensures Depth<L>([Close], 0) == 0 && Depth<L>([Close], 1) == -1
  {
  }

  lemma {:induction false} YieldBalanced<L>(p: Reading<L>)
    ensures Balanced(Yield(p)) && |Yield(p)| > 0
  {
    hide Balanced, TopOp;
    match p
    case RAtom(l) =>
      BalancedOne(Atom(l));
    case RParen(q) =>
      YieldBalanced(q);
      BalancedParens(Yield(q));
    case RPrefix(op, q) =>
      YieldBalanced(q);
      BalancedOne<L>(Op(op));
      BalancedAppend([Op(op)], Yield(q));
    case RInfix(a, op, b) =>
      YieldBalanced(a);
      YieldBalanced(b);
      BalancedOne<L>(Op(op));
      BalancedAppend(Yield(a), [Op(op)]);
      BalancedAppend(Yield(a) + [Op(op)], Yield(b));
  }

  /** No reading has an operator outside parentheses unless it is one itself. */
  lemma YieldTopOp<L>(p: Reading<L>)
    ensures match p
      case RAtom(_) => |Yield(p)| == 1 && NoTopOp(Yield(p))
      case RParen(_) => |Yield(p)| >= 3 && NoTopOp(Yield(p))
      case RPrefix(_, _) => |Yield(p)| >= 2 && TopOp(Yield(p), 0)
      case RInfix(a, _, _) => |Yield(p)| >= 3 && TopOp(Yield(p), |Yield(a)|) && |Yield(a)| > 0
  {
    hide Balanced, Depth;
    match p
    case RAtom(l) =>
      BalancedOne(Atom(l));
    case RParen(q) =>
      YieldBalanced(q);
      BalancedParens(Yield(q));
    case RPrefix(op, q) =>
      YieldBalanced(q);
      BalancedOne<L>(Op(op));
      BalancedAppend([Op(op)], Yield(q));
    case RInfix(a, op, b) =>
      YieldBalanced(a);
      YieldBalanced(b);
      BalancedOne<L>(Op(op));
      BalancedAppend(Yield(a), [Op(op)]);
      BalancedAppend(Yield(a) + [Op(op)], Yield(b));
  }

  /** The reading that the parentheses of the printer show. */
  function Intended<L>(e: Expr<L>): (p: Reading<L>)
    requires FromApi(e)
    ensures Yield(p) == Inner(e)
    decreases e, 0
  {
    match e
    case Leaf(l) => RAtom(l)
    case Binary(l, op, r) =>
      if op == "" then IntendedOperand(l)
      else if l.Nil? then RPrefix(op, IntendedOperand(r))
      else RInfix(IntendedOperand(l), op, IntendedOperand(r))
  }

  function IntendedOperand<L>(e: Expr<L>): (p: Reading<L>)
    requires FromApi(e)
    ensures Yield(p) == Outer(e)
    decreases e, 1
  {
    if e.Binary? then RParen(Intended(e)) else Intended(e)
  }

  lemma OuterTopOp<L>(e: Expr<L>)
    requires FromApi(e)
    ensures Balanced(Outer(e)) && NoTopOp(Outer(e)) && |Outer(e)| > 0
    ensures e.Leaf? ==> |Outer(e)| == 1
    ensures e.Binary? ==> |Outer(e)| >= 3
  {
    hide Balanced, NoTopOp;
    YieldBalanced(IntendedOperand(e));
    YieldTopOp(IntendedOperand(e));
    YieldBalanced(Intended(e));
  }

  /** Where the operator of a binary expression stands. */
  lemma InnerTopOp<L>(e: Expr<L>, k: nat)
    requires FromApi(e) && e.Binary? && e.op != ""
    requires TopOp(Inner(e), k)
    ensures k == if e.left.Nil? then 0 else |Outer(e.left)|
  {
    hide Balanced, Depth;
    OuterTopOp(e.right);
    BalancedOne<L>(Op(e.op));
    if e.left.Nil? {
      BalancedAppend([Op(e.op)], Outer(e.right));
    } else {
      OuterTopOp(e.left);
      BalancedAppend(Outer(e.left), [Op(e.op)]);
      BalancedAppend(Outer(e.left) + [Op(e.op)], Outer(e.right));
    }
  }

  /** Unambiguity, for an operand: every reading of it has the expression's meaning. */
  lemma {:induction false} OperandReadOneWay<L, V>(m: Meaning<L, V>, e: Expr<L>, p: Reading<L>)
    requires FromApi(e) && Yield(p) == Outer(e)
    ensures EvalReading(m, p) == Eval(m, e)
    decreases e, 1
  {
    OuterTopOp(e);
    YieldTopOp(p);
    if e.Binary? {
      assert p.RParen?;
      assert Yield(p)[1..|Yield(p)| - 1] == Yield(p.inner);
      assert Outer(e)[1..|Outer(e)| - 1] == Inner(e);
      ReadOneWay(m, e, p.inner);
    } else {
      assert p.RAtom?;
    }
  }

  /** Unambiguity: however the tokens of an expression are grouped, in a grammar that knows no
      precedence at all, the result has the expression's meaning. */
  lemma {:induction false} ReadOneWay<L, V>(m: Meaning<L, V>, e: Expr<L>, p: Reading<L>)
    requires FromApi(e) && Yield(p) == Inner(e)
    ensures EvalReading(m, p) == Eval(m, e)
    decreases e, 0
  {
    YieldTopOp(p);
    if e.Leaf? {
      assert p.RAtom?;
    } else if e.op == "" {
      OperandReadOneWay(m, e.left, p);
    } else {
      IntendedTopOp(e);
      OuterTopOp(e.right);
      var k := if e.left.Nil? then 0 else |Outer(e.left)|;
      if e.left.Nil? {
        if p.RInfix? {
          InnerTopOp(e, |Yield(p.left)|);
        }
        assert p.RPrefix?;
        assert Yield(p)[1..] == Yield(p.arg) && Inner(e)[1..] == Outer(e.right);
        OperandReadOneWay(m, e.right, p.arg);
      } else {
        OuterTopOp(e.left);
        assert p.RInfix?;
        InnerTopOp(e, |Yield(p.left)|);
        assert Yield(p)[..k] == Yield(p.left) && Inner(e)[..k] == Outer(e.left);
        assert Yield(p)[k + 1..] == Yield(p.right) && Inner(e)[k + 1..] == Outer(e.right);
        OperandReadOneWay(m, e.left, p.left);
        OperandReadOneWay(m, e.right, p.right);
      }
    }
  }

  lemma IntendedTopOp<L>(e: Expr<L>)
    requires FromApi(e) && e.Binary? && e.op != ""
    ensures TopOp(Inner(e), if e.left.Nil? then 0 else |Outer(e.left)|)
  {
    YieldTopOp(Intended(e));
  }

  /** Printing preserves meaning. The tokens that `buildExpression` writes for an expression,
      spaces left aside, can be read, and every way of reading them gives the value of the
      expression, whatever its operands and operators mean. */
  lemma PrintingPreservesMeaning<L, V>(m: Meaning<L, V>, e: Expr<L>)
    requires FromApi(e)
    ensures exists p :: Yield<L>(p) == Visible(Tokens(e))
    ensures forall p :: Yield<L>(p) == Visible(Tokens(e)) ==> EvalReading(m, p) == Eval(m, e)
  {
    VisibleTokens(e);
    assert Yield(Intended(e)) == Visible(Tokens(e));
    forall p | Yield<L>(p) == Visible(Tokens(e)) ensures EvalReading(m, p) == Eval(m, e) {
      ReadOneWay(m, e, p);
    }
  }

  // ---------------------------------------------------------------- the calls that build expressions

  datatype Arithmetic = Plus | Times

  datatype Comparison = Equal | Less | Greater | In

  /** What a caller writes with the methods of columns, aggregates, arithmetic and predicates. */
  datatype Written<L> =
    | Plain(leaf: L)
    | Arith(left: Written<L>, sign: Arithmetic, val: L)
    | Compare(left: Written<L>, how: Comparison, right: Written<L>)
    | AsPredicate(raw: L)
    | Exist(sub: L)
    | Not(p: Written<L>)
    | And(p: Written<L>, q: Written<L>)
    | Or(p: Written<L>, q: Written<L>)

  function ArithmeticOp(a: Arithmetic): string
  {
    if a.Plus? then "+" else "*"
  }

  /** The operator that `Add` and `Multi` store: `Multi` of a column stores the one of `Add`. */
  function StoredOp<L>(left: Written<L>, sign: Arithmetic): string
  {
    if left.Plain? then "+" else ArithmeticOp(sign)
  }

  function ComparisonOp(c: Comparison): string
  {
    match c case Equal => "=" case Less => "<" case Greater => ">" case In => "IN"
  }

  /** The expression that the methods build. */
  function Built<L>(w: Written<L>): (e: Expr<L>)
  {
    match w
    case Plain(l) => Leaf(l)
    case Arith(left, sign, val) => Binary(Built(left), StoredOp(left, sign), Leaf(val))
    case Compare(left, how, right) => Binary(Built(left), ComparisonOp(how), Built(right))
    case AsPredicate(raw) => Binary(Leaf(raw), "", Nil)
    case Exist(sub) => Binary(Nil, "EXIST", Leaf(sub))
    case Not(p) => Binary(Nil, "NOT", Built(p))
    case And(p, q) => Binary(Built(p), "AND", Built(q))
    case Or(p, q) => Binary(Built(p), "OR", Built(q))
  }

  /** What the caller means. */
  function Meant<L, V>(m: Meaning<L, V>, w: Written<L>): V
  {
    match w
    case Plain(l) => m.leaf(l)
    case Arith(left, sign, val) => m.infix(ArithmeticOp(sign), Meant(m, left), m.leaf(val))
    case Compare(left, how, right) => m.infix(ComparisonOp(how), Meant(m, left), Meant(m, right))
    case AsPredicate(raw) => m.leaf(raw)
    case Exist(sub) => m.prefix("EXIST", m.leaf(sub))
    case Not(p) => m.prefix("NOT", Meant(m, p))
    case And(p, q) => m.infix("AND", Meant(m, p), Meant(m, q))
    case Or(p, q) => m.infix("OR", Meant(m, p), Meant(m, q))
  }

  /** No column is multiplied. */
  predicate NoColumnProduct<L>(w: Written<L>)
  {
    match w
    case Plain(_) => true
    case Arith(left, sign, _) => !(left.Plain? && sign.Times?) && NoColumnProduct(left)
    case Compare(left, _, right) => NoColumnProduct(left) && NoColumnProduct(right)
    case AsPredicate(_) => true
    case Exist(_) => true
    case Not(p) => NoColumnProduct(p)
    case And(p, q) => NoColumnProduct(p) && NoColumnProduct(q)
    case Or(p, q) => NoColumnProduct(p) && NoColumnProduct(q)
  }

  lemma {:induction false} BuiltMeans<L, V>(m: Meaning<L, V>, w: Written<L>)
    ensures FromApi(Built(w))
    ensures NoColumnProduct(w) ==> Eval(m, Built(w)) == Meant(m, w)
  {
    match w
    case Arith(left, _, _) => BuiltMeans(m, left);
    case Compare(left, _, right) =>
      BuiltMeans(m, left);
      BuiltMeans(m, right);
    case Not(p) => BuiltMeans(m, p);
    case And(p, q) =>
      BuiltMeans(m, p);
      BuiltMeans(m, q);
    case Or(p, q) =>
      BuiltMeans(m, p);
      BuiltMeans(m, q);
    case _ =>
  }

  /** The meaning that keeps everything apart: an expression means its own shape. */
  function Shape<L(!new)>(): Meaning<L, Expr<L>>
  {
    Meaning((l: L) => Leaf(l), (op: string, v: Expr<L>) => Binary(Nil, op, v),
            (op: string, a: Expr<L>, b: Expr<L>) => Binary(a, op, b))
  }

  lemma {:induction false} ShapeTells<L(!new)>(w: Written<L>)
    ensures FromApi(Built(w))
    ensures Eval(Shape(), Built(w)) == Meant(Shape(), w) <==> NoColumnProduct(w)
  {
    match w
    case Arith(left, sign, _) =>
      ShapeTells(left);
      OperatorsDiffer();
    case Compare(left, _, right) =>
      ShapeTells(left);
      ShapeTells(right);
    case Not(p) => ShapeTells(p);
    case And(p, q) =>
      ShapeTells(p);
      ShapeTells(q);
    case Or(p, q) =>
      ShapeTells(p);
      ShapeTells(q);
    case _ =>
  }

  lemma OperatorsDiffer()
    ensures "+" != "*"
  {
    assert "+"[0] != "*"[0];
  }

  /** Every reading of what is printed means what the caller meant. */
  ghost predicate ReadAsMeant<L(!new), V>(m: Meaning<L, V>, w: Written<L>)
  {
    forall p :: Yield<L>(p) == Visible(Tokens(Built(w))) ==> EvalReading(m, p) == Meant(m, w)
  }

  lemma WrittenIsRead<L(!new), V>(m: Meaning<L, V>, w: Written<L>)
    ensures exists p :: Yield<L>(p) == Visible(Tokens(Built(w)))
    ensures NoColumnProduct(w) ==> ReadAsMeant(m, w)
  {
    hide Built, Tokens, Visible, FromApi, Meant, Eval, NoColumnProduct;
    BuiltMeans(m, w);
    PrintingPreservesMeaning(m, Built(w));
    forall p | Yield<L>(p) == Visible(Tokens(Built(w))) && NoColumnProduct(w)
      ensures EvalReading(m, p) == Meant(m, w)
    {
    }
  }

  /** From the caller to the text: what is written with the methods is printed so that, whatever
      operands and operators mean, every reading means what the caller meant, iff no column is
      multiplied. */
  lemma WrittenIsReadExactly<L(!new)>(w: Written<L>)
    ensures (forall m: Meaning<L, Expr<L>> :: ReadAsMeant(m, w)) <==> NoColumnProduct(w)
  {
    hide Built, Tokens, Visible, FromApi, Meant, Eval, NoColumnProduct, ReadAsMeant;
    if NoColumnProduct(w) {
      forall m: Meaning<L, Expr<L>> ensures ReadAsMeant(m, w) {
        WrittenIsRead(m, w);
      }
    } else {
      ShapeTells(w);
      NotAsMeant(Shape(), w);
    }
  }

  lemma NotAsMeant<L(!new), V>(m: Meaning<L, V>, w: Written<L>)
    requires FromApi(Built(w)) && Eval(m, Built(w)) != Meant(m, w)
    ensures !ReadAsMeant(m, w)
  {
    hide Built, Tokens, Visible, FromApi, Meant, Eval;
    PrintingPreservesMeaning(m, Built(w));
  }

  /** What SQL's operators do with numbers, truth being 1 and falsehood 0. `among` and `present`
      are what IN and EXIST do. */
  function Sql(among: (int, int) -> int, present: int -> int): Meaning<int, int>
  {
    Meaning((l: int) => l,
            (op: string, v: int) => if op == "NOT" then 1 - v else if op == "EXIST" then present(v) else 0,
            (op: string, a: int, b: int) =>
              if op == "+" then a + b
              else if op == "*" then a * b
              else if op == "=" then Truth(a == b)
              else if op == "<" then Truth(a < b)
              else if op == ">" then Truth(a > b)
              else if op == "AND" then Truth(a == 1 && b == 1)
              else if op == "OR" then Truth(a == 1 || b == 1)
              else if op == "IN" then among(a, b)
              else 0)
  }

  function Truth(b: bool): int
  {
    if b then 1 else 0
  }

  /** What the caller writes, computed without any operator's name. */
  function Computed(w: Written<int>, among: (int, int) -> int, present: int -> int): int
  {
    match w
    case Plain(l) => l
    case Arith(left, Plus, val) => Computed(left, among, present) + val
    case Arith(left, Times, val) => Computed(left, among, present) * val
    case Compare(left, Equal, right) => Truth(Computed(left, among, present) == Computed(right, among, present))
    case Compare(left, Less, right) => Truth(Computed(left, among, present) < Computed(right, among, present))
    case Compare(left, Greater, right) => Truth(Computed(left, among, present) > Computed(right, among, present))
    case Compare(left, In, right) => among(Computed(left, among, present), Computed(right, among, present))
    case AsPredicate(raw) => raw
    case Exist(sub) => present(sub)
    case Not(p) => 1 - Computed(p, among, present)
    case And(p, q) => Truth(Computed(p, among, present) == 1 && Computed(q, among, present) == 1)
    case Or(p, q) => Truth(Computed(p, among, present) == 1 || Computed(q, among, present) == 1)
  }

  lemma {:induction false} MeantIsComputed(w: Written<int>, among: (int, int) -> int, present: int -> int)
    ensures Meant(Sql(among, present), w) == Computed(w, among, present)
  {
    match w
    case Arith(left, _, _) =>
      MeantIsComputed(left, among, present);
      NamesDiffer();
    case Compare(left, _, right) =>
      MeantIsComputed(left, among, present);
      MeantIsComputed(right, among, present);
      NamesDiffer();
    case Exist(_) => NamesDiffer();
    case Not(p) => MeantIsComputed(p, among, present);
    case And(p, q) =>
      MeantIsComputed(p, among, present);
      MeantIsComputed(q, among, present);
      NamesDiffer();
    case Or(p, q) =>
      MeantIsComputed(p, among, present);
      MeantIsComputed(q, among, present);
      NamesDiffer();
    case _ =>
  }

  lemma NamesDiffer()
    ensures "+" != "*" && "+" != "=" && "*" != "=" && "NOT" != "EXIST"
    ensures "<" != "+" && "<" != "*" && "<" != "=" && ">" != "+" && ">" != "*" && ">" != "=" && ">" != "<"
    ensures |"AND"| == 3 && |"OR"| == |"IN"| == 2 && "OR" != "IN" && |"+"| == |"*"| == |"="| == |"<"| == |">"| == 1
  {
    assert "+"[0] != "*"[0] && "+"[0] != "="[0] && "*"[0] != "="[0] && "OR"[0] != "IN"[0];
    assert "<"[0] != "+"[0] && "<"[0] != "*"[0] && "<"[0] != "="[0] && "<"[0] != ">"[0];
    assert ">"[0] != "+"[0] && ">"[0] != "*"[0] && ">"[0] != "="[0];
    assert |"NOT"| == 3 && |"EXIST"| == 5;
  }

  /** In SQL, every reading of what is printed has the value that the caller's comparisons,
      connectives and arithmetic have, if no column is multiplied. */
  lemma ReadInSql(w: Written<int>, p: Reading<int>, among: (int, int) -> int, present: int -> int)
    requires NoColumnProduct(w) && Yield<int>(p) == Visible(Tokens(Built(w)))
    ensures EvalReading(Sql(among, present), p) == Computed(w, among, present)
  {
    hide Built, Tokens, Visible, FromApi, Meant, Eval, NoColumnProduct, Sql, Computed;
    BuiltMeans(Sql(among, present), w);
    PrintingPreservesMeaning(Sql(among, present), Built(w));
    MeantIsComputed(w, among, present);
  }

  /** Numbers, with the usual sum and product. */
  function Numbers(): Meaning<int, int>
  {
    Meaning((l: int) => l, (op: string, v: int) => v,
            (op: string, a: int, b: int) => if op == "+" then a + b else if op == "*" then a * b else 0)
  }

  /** A column that holds 5, multiplied by 2: the caller means 10, and what is printed is 7. */
  lemma ColumnTimesTwo()
    ensures var w: Written<int> := Arith(Plain(5), Times, 2);
      && Meant(Numbers(), w) == 10
      && forall p :: Yield<int>(p) == Visible(Tokens(Built(w))) ==> EvalReading(Numbers(), p) == 7
  {
    var w: Written<int> := Arith(Plain(5), Times, 2);
    OperatorsDiffer();
    assert Eval(Numbers(), Built(w)) == 7;
    PrintingPreservesMeaning(Numbers(), Built(w));
    forall p | Yield<int>(p) == Visible(Tokens(Built(w))) ensures EvalReading(Numbers(), p) == 7 {
    }
  }

  // ---------------------------------------------------------------- lists of predicates

  /** `p.And(ps[1]).And(ps[2])...` over the first `n` of a list. */
  function Conjunction<L>(ps: seq<Expr<L>>, n: nat): (e: Expr<L>)
    requires 0 < n <= |ps|
    ensures (forall i :: 0 <= i < n ==> FromApi(ps[i])) ==> FromApi(e)
  {
    if n == 1 then ps[0] else Binary(Conjunction(ps, n - 1), "AND", ps[n - 1])
  }

  /** What a list of predicates means: with an AND that is true iff both sides are and false iff
      one side is, as SQL's three-valued one, it is true iff all members are and false iff some
      member is. */
  lemma {:induction false} ListMeansConjunction<L, V>(m: Meaning<L, V>, ps: seq<Expr<L>>, n: nat,
                                                      isTrue: V -> bool, isFalse: V -> bool)
    requires 0 < n <= |ps| && forall i :: 0 <= i < |ps| ==> FromApi(ps[i])
    requires forall x, y :: isTrue(m.infix("AND", x, y)) <==> isTrue(x) && isTrue(y)
    requires forall x, y :: isFalse(m.infix("AND", x, y)) <==> isFalse(x) || isFalse(y)
    ensures isTrue(Eval(m, Conjunction(ps, n))) <==> forall i :: 0 <= i < n ==> isTrue(Eval(m, ps[i]))
    ensures isFalse(Eval(m, Conjunction(ps, n))) <==> exists i :: 0 <= i < n && isFalse(Eval(m, ps[i]))
  {
    if n > 1 {
      ListMeansConjunction(m, ps, n - 1, isTrue, isFalse);
    }
  }
}
