/** The SELECT builder of orm/homework3 (builder.go, select.go): builders that append to their text
    and arguments while they recurse over a statement, subqueries among it, which are other
    builders' statements. What all the builders hold after a `Build` is a function of what they
    held before it; the theorems are about that function. */
module SqlBuilder {
  import opened Wrappers
  import opened SqlGrammar
  import opened SqlText

  // ---------------------------------------------------------------- statements

  /** What an expression is made of. `Quantified` is SubqueryExpr. */
  datatype Operand =
    | Column(table: TableRef, name: string, alias: string)
    | Aggregate(table: TableRef, fn: string, arg: string, alias: string)
    | Value(val: Arg)
    | Raw(raw: string, args: seq<Arg>)
    | Quantified(pred: string, sub: Subquery)
    | Nested(sub: Subquery)

  datatype TableRef =
    | NoTable
    | Table(entity: string, alias: string)
    | Join(left: TableRef, right: TableRef, typ: string, on: seq<Expr<Operand>>, using: seq<string>)
    | Derived(sub: Subquery)

  datatype Subquery = Subquery(s: Selector, alias: string)

  /** A name without a question mark. */
  type Name = s: string | NoMark(s) witness ""

  /** Name resolution, which the model leaves open: the column of a field and the table of an
      entity, if there is one. */
  datatype Schema = Schema(
    column: (TableRef, string) -> Option<Name>,
    table: string -> Option<Name>,
    ownTable: Option<Name>)

  function AliasOf(t: TableRef): string
  {
    match t
    case NoTable => ""
    case Table(_, alias) => alias
    case Join(_, _, _, _, _) => ""
    case Derived(sub) => sub.alias
  }

  // ---------------------------------------------------------------- what is to be written

  /** A piece of a statement: fixed text, an operand, the name of a table, or a column that cannot
      be selected, at which the builder fails. */
  datatype Piece = Lit(text: string) | Item(operand: Operand) | TableName(entity: string) | OwnTable | Refused

  function TokenPiece(t: Tok<Operand>): Piece
  {
    match t
    case Open => Lit("(")
    case Close => Lit(")")
    case Space => Lit(" ")
    case Op(op) => Lit(op)
    case Atom(l) => Item(l)
  }

  function TokenPieces(ts: seq<Tok<Operand>>): (ps: seq<Piece>)
    ensures |ps| == |ts|
  {
    seq(|ts|, i requires 0 <= i < |ts| => TokenPiece(ts[i]))
  }

  function ExprPieces(e: Expr<Operand>): seq<Piece>
  {
    TokenPieces(Tokens(e))
  }

  /** A list of predicates that is not empty. */
  function ListPieces(ps: seq<Expr<Operand>>): seq<Piece>
    requires |ps| > 0
  {
    ExprPieces(Conjunction(ps, |ps|))
  }

  function AsPieces(alias: string): seq<Piece>
  {
    if alias == "" then [] else [Lit(" AS "), Lit(Quoted(alias))]
  }

  /** The comma before every element of a list but the first. */
  function CommaPieces(i: nat): seq<Piece>
  {
    if i == 0 then [] else [Lit(",")]
  }

  /** The columns of a USING or a GROUP BY clause, the first `n` of them. */
  function NamesTo(cs: seq<Operand>, n: nat): seq<Piece>
    requires n <= |cs|
  {
    if n == 0 then [] else
    NamesTo(cs, n - 1) + CommaPieces(n - 1) + [Item(cs[n - 1])]
  }

  function UsingColumns(using: seq<string>): seq<Operand>
  {
    seq(|using|, i requires 0 <= i < |using| => Column(NoTable, using[i], ""))
  }

  function UsingPieces(using: seq<string>): seq<Piece>
  {
    if |using| == 0 then [] else [Lit(" USING (")] + NamesTo(UsingColumns(using), |using|) + [Lit(")")]
  }

  function JoinTypePieces(typ: string): seq<Piece>
  {
    [Lit(" "), Lit(typ), Lit(" ")]
  }

  function GroupPieces(groupBy: seq<Operand>): seq<Piece>
  {
    if |groupBy| == 0 then [] else [Lit(" GROUP BY ")] + NamesTo(groupBy, |groupBy|)
  }

  function WherePieces(keyword: string, ps: seq<Expr<Operand>>): seq<Piece>
  {
    if |ps| == 0 then [] else [Lit(keyword)] + ListPieces(ps)
  }

  function LimitPieces(keyword: string, n: int): seq<Piece>
  {
    if n > 0 then [Lit(keyword), Item(Value(Number(n)))] else []
  }

  function TablePieces(t: TableRef): seq<Piece>
  {
    match t
    case NoTable => [OwnTable]
    case Table(entity, alias) => [TableName(entity)] + AsPieces(alias)
    case Join(left, right, typ, on, using) =>
      [Lit("(")] + TablePieces(left) + JoinTypePieces(typ) + TablePieces(right)
      + UsingPieces(using) + WherePieces(" ON ", on) + [Lit(")")]
    case Derived(sub) => [Item(Nested(sub)), Lit(" AS "), Lit(Quoted(sub.alias))]
  }

  predicate Selectable(c: Operand)
  {
    c.Column? || c.Aggregate? || c.Raw?
  }

  function ColumnAlias(c: Operand): string
  {
    if c.Column? || c.Aggregate? then c.alias else ""
  }

  function ColumnPieces(c: Operand): seq<Piece>
  {
    if Selectable(c) then [Item(c)] + AsPieces(ColumnAlias(c)) else [Refused]
  }

  /** The selected columns, the first `n` of them. */
  function ColumnsTo(cs: seq<Operand>, n: nat): seq<Piece>
    requires n <= |cs|
  {
    if n == 0 then [] else
    ColumnsTo(cs, n - 1) + CommaPieces(n - 1) + ColumnPieces(cs[n - 1])
  }

  function SelectPieces(columns: seq<Operand>): seq<Piece>
  {
    if |columns| == 0 then [Lit("*")] else ColumnsTo(columns, |columns|)
  }

  // ---------------------------------------------------------------- what a run of the builder leaves

  /** The selectors that take part, with what each of them is to write. */
  type World = map<Selector, seq<Piece>>

  /** Where a piece is written: names are resolved by `schema`, and subqueries are selectors of
      `stmts` below `level`. */
  datatype Context = Context(schema: Schema, stmts: World, level: nat)

  /** What every builder holds. */
  type Traces = map<Builder, seq<Ch>>

  function Held(st: Traces, b: Builder): seq<Ch>
  {
    if b in st then st[b] else []
  }

  function Put(st: Traces, b: Builder, cs: seq<Ch>): Traces
  {
    st[b := Held(st, b) + cs]
  }

  function InParens(t: seq<Ch>): seq<Ch>
  {
    Chars("(") + (if |t| == 0 then [] else t[..|t| - 1]) + Chars(")")
  }

  ghost predicate Inside(s: Selector, x: Context)
  {
    s in x.stmts && s.b.level < x.level
  }

  ghost function In(s: Selector, w: World): Context
  {
    Context(s.b.schema, w, s.b.level)
  }

  predicate HasSubquery(p: Piece)
  {
    p.Item? && (p.operand.Quantified? || p.operand.Nested?)
  }

  /** What is written before a column's name. */
  function AliasPrefix(t: TableRef): string
  {
    if AliasOf(t) == "" then "" else Quoted(AliasOf(t)) + "."
  }

  /** What `buildColumn` writes; only the alias, if the name is unknown. */
  function ColumnText(sch: Schema, t: TableRef, name: string): string
  {
    AliasPrefix(t) + match sch.column(t, name) case None => "" case Some(c) => Quoted(c)
  }

  function AggregateText(sch: Schema, t: TableRef, fn: string, arg: string): string
  {
    fn + "(" + ColumnText(sch, t, arg) + (if sch.column(t, arg) == None then "" else ")")
  }

  function NameText(name: Option<Name>): string
  {
    match name case None => "" case Some(n) => Quoted(n)
  }

  /** What is written for a piece that is no subquery. */
  function SimpleChars(sch: Schema, p: Piece): seq<Ch>
  {
    match p
    case Lit(s) => Chars(s)
    case Refused => []
    case TableName(entity) => Chars(NameText(sch.table(entity)))
    case OwnTable => Chars(NameText(sch.ownTable))
    case Item(Column(t, name, _)) => Chars(ColumnText(sch, t, name))
    case Item(Aggregate(t, fn, arg, _)) => Chars(AggregateText(sch, t, fn, arg))
    case Item(Value(v)) => [Hole(v)]
    case Item(Raw(raw, args)) => Weave(raw, args)
    case Item(Quantified(_, _)) => []
    case Item(Nested(_)) => []
  }

  /** Every name in a piece that is no subquery is known. */
  predicate SimpleBuilds(sch: Schema, p: Piece)
  {
    match p
    case Lit(_) => true
    case Refused => false
    case TableName(entity) => sch.table(entity).Some?
    case OwnTable => sch.ownTable.Some?
    case Item(Column(t, name, _)) => sch.column(t, name).Some?
    case Item(Aggregate(t, _, arg, _)) => sch.column(t, arg).Some?
    case Item(_) => true
  }

  /** The builder `b` writes a piece: what all builders hold then, and whether it succeeds. */
  ghost function RunPiece(x: Context, p: Piece, b: Builder, st: Traces): (Traces, bool)
    decreases x.level, 0, 0
  {
    if !HasSubquery(p) then (Put(st, b, SimpleChars(x.schema, p)), SimpleBuilds(x.schema, p))
    else if !Inside(p.operand.sub.s, x) then (st, false)
    else if p.operand.Nested? then RunNested(p.operand.sub.s, x.stmts, b, st)
    else RunNested(p.operand.sub.s, x.stmts, b, Put(st, b, Chars(p.operand.pred + " ")))
  }

  /** One piece after another, up to the first that fails. */
  ghost function RunPieces(x: Context, ps: seq<Piece>, b: Builder, st: Traces): (Traces, bool)
    decreases x.level, 1, |ps|
  {
    if |ps| == 0 then (st, true) else
    var (st1, ok) := RunPiece(x, ps[0], b, st);
    if ok then RunPieces(x, ps[1..], b, st1) else (st1, false)
  }

  /** `Build` of a selector: nothing is written if its own table is unknown. */
  ghost function RunStatement(s: Selector, w: World, st: Traces): (Traces, bool)
    requires s in w
    decreases s.b.level, 2, 0
  {
    if s.b.schema.ownTable == None then (st, false) else RunPieces(In(s, w), w[s], s.b, st)
  }

  /** `buildSubquery` for the builder `b`: the subquery is built first, in its own builder, and all
      that builder holds then is taken over, without its last character and in parentheses. */
  ghost function RunNested(s: Selector, w: World, b: Builder, st: Traces): (Traces, bool)
    requires s in w
    decreases s.b.level, 3, 0
  {
    var (st1, ok) := RunStatement(s, w, st);
    if ok then (Put(st1, b, InParens(Held(st1, s.b))), true) else (st1, false)
  }

  /** Writing the pieces leads from `s0` to `s1`. */
  ghost predicate Ran(x: Context, b: Builder, ps: seq<Piece>, s0: Traces, s1: Traces, ok: bool)
  {
    RunPieces(x, ps, b, s0) == (s1, ok)
  }

  lemma {:induction false} RunAppend(x: Context, ps: seq<Piece>, qs: seq<Piece>, b: Builder, st: Traces)
    ensures var (st1, ok) := RunPieces(x, ps, b, st);
      RunPieces(x, ps + qs, b, st) == if ok then RunPieces(x, qs, b, st1) else (st1, false)
  {
    hide RunPiece;
    if |ps| == 0 {
      assert ps + qs == qs;
    } else {
      assert (ps + qs)[1..] == ps[1..] + qs;
      RunAppend(x, ps[1..], qs, b, RunPiece(x, ps[0], b, st).0);
    }
  }

  /** Writing one list of pieces and then, unless it failed, another. */
  lemma RanThen(x: Context, b: Builder, ps: seq<Piece>, qs: seq<Piece>,
                s0: Traces, s1: Traces, ok1: bool, s2: Traces, ok2: bool)
    requires Ran(x, b, ps, s0, s1, ok1)
    requires if ok1 then Ran(x, b, qs, s1, s2, ok2) else s2 == s1 && !ok2
    ensures Ran(x, b, ps + qs, s0, s2, ok2)
  {
    hide RunPieces;
    RunAppend(x, ps, qs, b, s0);
  }

  lemma RanNothing(x: Context, b: Builder, st: Traces)
    ensures Ran(x, b, [], st, st, true)
  {
  }

  lemma RanOne(x: Context, b: Builder, p: Piece, s0: Traces, s1: Traces, ok: bool)
    requires RunPiece(x, p, b, s0) == (s1, ok)
    ensures Ran(x, b, [p], s0, s1, ok)
  {
    hide RunPiece;
    assert [p][1..] == [] && RunPieces(x, [], b, s1) == (s1, true);
  }

  lemma PutTwice(st: Traces, b: Builder, a: seq<Ch>, c: seq<Ch>)
    ensures Put(Put(st, b, a), b, c) == Put(st, b, a + c)
  {
    assert Held(st, b) + a + c == Held(st, b) + (a + c);
  }

  // ---------------------------------------------------------------- when a build succeeds

  /** Every name in the piece is known, in its subquery as well. */
  ghost predicate PieceBuilds(x: Context, p: Piece)
    decreases x.level, 0
  {
    if HasSubquery(p) then Inside(p.operand.sub.s, x) && StatementBuilds(p.operand.sub.s, x.stmts)
    else SimpleBuilds(x.schema, p)
  }

  ghost predicate Builds(x: Context, ps: seq<Piece>)
    decreases x.level, 1
  {
    forall i :: 0 <= i < |ps| ==> PieceBuilds(x, ps[i])
  }

  /** The selector's own table and all names are known, in its subqueries as well, and the columns
      it selects can be selected. */
  ghost predicate StatementBuilds(s: Selector, w: World)
    requires s in w
    decreases s.b.level, 2
  {
    s.b.schema.ownTable.Some? && Builds(In(s, w), w[s])
  }

  lemma {:induction false} RunPiecesSucceeds(x: Context, ps: seq<Piece>, b: Builder, st: Traces)
    ensures RunPieces(x, ps, b, st).1 <==> Builds(x, ps)
    decreases x.level, 1, |ps|
  {
    hide RunPiece, PieceBuilds;
    if |ps| > 0 {
      var (st1, ok) := RunPiece(x, ps[0], b, st);
      RunPieceSucceeds(x, ps[0], b, st);
      RunPiecesSucceeds(x, ps[1..], b, st1);
      BuildsCons(x, ps);
    }
  }

  lemma BuildsCons(x: Context, ps: seq<Piece>)
    requires |ps| > 0
    ensures Builds(x, ps) <==> PieceBuilds(x, ps[0]) && Builds(x, ps[1..])
  {
    hide PieceBuilds;
    forall i | 0 < i < |ps| ensures ps[i] == ps[1..][i - 1] {
    }
  }

  lemma {:induction false} RunPieceSucceeds(x: Context, p: Piece, b: Builder, st: Traces)
    ensures RunPiece(x, p, b, st).1 <==> PieceBuilds(x, p)
    decreases x.level, 0, 0
  {
    hide RunPieces, Builds, SimpleChars, SimpleBuilds;
    if HasSubquery(p) && Inside(p.operand.sub.s, x) {
      var s := p.operand.sub.s;
      var st1 := if p.operand.Nested? then st else Put(st, b, Chars(p.operand.pred + " "));
      BuildSucceedsExactly(s, x.stmts, st1);
    }
  }

  /** `Build` succeeds iff all names are known, whatever the builders hold. */
  lemma {:induction false} BuildSucceedsExactly(s: Selector, w: World, st: Traces)
    requires s in w
    ensures RunStatement(s, w, st).1 <==> StatementBuilds(s, w)
    decreases s.b.level, 2, 0
  {
    hide RunPieces, Builds;
    RunPiecesSucceeds(In(s, w), w[s], s.b, st);
  }

  // ---------------------------------------------------------------- the statement itself

  /** The text of a statement, with the texts of its subqueries in it and each placeholder with its
      argument. It is about the statement only, not about what builders hold. */
  ghost function StatementText(s: Selector, w: World): seq<Ch>
    requires s in w
    decreases s.b.level, 2, 0
  {
    PiecesText(In(s, w), w[s])
  }

  ghost function PiecesText(x: Context, ps: seq<Piece>): seq<Ch>
    decreases x.level, 1, |ps|
  {
    if |ps| == 0 then [] else PieceText(x, ps[0]) + PiecesText(x, ps[1..])
  }

  ghost function PieceText(x: Context, p: Piece): seq<Ch>
    decreases x.level, 0, 0
  {
    if !HasSubquery(p) then SimpleChars(x.schema, p)
    else if !Inside(p.operand.sub.s, x) then []
    else
      var t := InParens(StatementText(p.operand.sub.s, x.stmts));
      if p.operand.Nested? then t else Chars(p.operand.pred + " ") + t
  }

  /** The builders of the subqueries, at every depth, as often as they are built. */
  ghost function StatementUses(s: Selector, w: World): multiset<Builder>
    requires s in w
    decreases s.b.level, 2, 0
  {
    PiecesUses(In(s, w), w[s])
  }

  ghost function PiecesUses(x: Context, ps: seq<Piece>): multiset<Builder>
    decreases x.level, 1, |ps|
  {
    if |ps| == 0 then multiset{} else PieceUses(x, ps[0]) + PiecesUses(x, ps[1..])
  }

  ghost function PieceUses(x: Context, p: Piece): multiset<Builder>
    decreases x.level, 0, 0
  {
    if HasSubquery(p) && Inside(p.operand.sub.s, x) then
      StatementUses(p.operand.sub.s, x.stmts) + multiset{p.operand.sub.s.b}
    else multiset{}
  }

  /** Each of the builders is used once and holds nothing yet. */
  ghost predicate FirstUse(uses: multiset<Builder>, st: Traces)
  {
    forall c :: c in uses ==> uses[c] == 1 && |Held(st, c)| == 0
  }

  ghost predicate BelowLevel(uses: multiset<Builder>, level: nat)
  {
    forall c :: c in uses ==> c.level < level
  }

  /** Statements end in a semicolon. */
  ghost predicate Terminated(w: World)
  {
    forall s :: s in w ==> |w[s]| > 0 && w[s][|w[s]| - 1] == Lit(";")
  }

  /** What writing the text `t`, which uses the builders `uses`, does: the builders used grow, no
      other but `b` changes, and `b` grows by at least as much as `t` has, and by just that iff
      all the builders are used for the first time. */
  ghost predicate Effect(uses: multiset<Builder>, t: seq<Ch>, b: Builder, s0: Traces, s1: Traces)
  {
    && b !in uses
    && s0.Keys <= s1.Keys
    && (forall c :: c in s1 && c != b && c !in uses ==> Held(s1, c) == Held(s0, c))
    && (forall c :: c in uses ==> |Held(s1, c)| > |Held(s0, c)|)
    && |Held(s1, b)| >= |Held(s0, b)| + |t|
    && (|Held(s1, b)| == |Held(s0, b)| + |t| <==> FirstUse(uses, s0))
    && (FirstUse(uses, s0) ==> Held(s1, b) == Held(s0, b) + t)
  }

  lemma EffectElsewhere(uses: multiset<Builder>, t: seq<Ch>, b: Builder, s0: Traces, s1: Traces, c: Builder)
    requires Effect(uses, t, b, s0, s1) && c != b && c !in uses
    ensures Held(s1, c) == Held(s0, c)
  {
    hide FirstUse;
  }

  lemma EffectTwice(u: multiset<Builder>, t: seq<Ch>, v: multiset<Builder>, r: seq<Ch>,
                    b: Builder, s0: Traces, s1: Traces, s2: Traces)
    requires Effect(u, t, b, s0, s1) && Effect(v, r, b, s1, s2)
    ensures Effect(u + v, t + r, b, s0, s2)
  {
    hide Held, FirstUse;
    FirstUseBoth(u, t, v, b, s0, s1);
    ChangesBoth(u, t, v, r, b, s0, s1, s2);
    if FirstUse(u + v, s0) {
      assert Held(s0, b) + t + r == Held(s0, b) + (t + r);
    }
  }

  /** The builders used by either part grow, the others stay. */
  lemma ChangesBoth(u: multiset<Builder>, t: seq<Ch>, v: multiset<Builder>, r: seq<Ch>,
                    b: Builder, s0: Traces, s1: Traces, s2: Traces)
    requires Effect(u, t, b, s0, s1) && Effect(v, r, b, s1, s2)
    ensures forall c :: c in u + v ==> |Held(s2, c)| > |Held(s0, c)|
    ensures forall c :: c in s2 && c != b && c !in u + v ==> Held(s2, c) == Held(s0, c)
  {
    hide Held, FirstUse;
    forall c | c in u + v ensures |Held(s2, c)| > |Held(s0, c)| {
      if c !in u {
        EffectElsewhere(u, t, b, s0, s1, c);
      } else if c !in v {
        EffectElsewhere(v, r, b, s1, s2, c);
      }
    }
    forall c | c in s2 && c != b && c !in u + v ensures Held(s2, c) == Held(s0, c) {
      EffectElsewhere(u, t, b, s0, s1, c);
      EffectElsewhere(v, r, b, s1, s2, c);
    }
  }

  /** The second part sees builders that were not used before iff the first part used none of
      them. */
  lemma FirstUseBoth(u: multiset<Builder>, t: seq<Ch>, v: multiset<Builder>, b: Builder, s0: Traces, s1: Traces)
    requires Effect(u, t, b, s0, s1) && b !in v
    ensures FirstUse(u + v, s0) <==> FirstUse(u, s0) && FirstUse(v, s1)
  {
    hide Held;
    if FirstUse(u + v, s0) {
      forall c | c in u ensures u[c] == 1 && |Held(s0, c)| == 0 {
        assert c in u + v;
      }
      forall c | c in v ensures v[c] == 1 && |Held(s1, c)| == 0 {
        assert c in u + v;
        assert (u + v)[c] == u[c] + v[c] && c !in u;
        EffectElsewhere(u, t, b, s0, s1, c);
      }
    }
    if FirstUse(u, s0) && FirstUse(v, s1) {
      forall c | c in u + v ensures (u + v)[c] == 1 && |Held(s0, c)| == 0 {
        if c !in u {
          EffectElsewhere(u, t, b, s0, s1, c);
        }
      }
    }
  }

  lemma EffectNothing(b: Builder, st: Traces)
    ensures Effect(multiset{}, [], b, st, st)
  {
  }

  lemma EffectPut(b: Builder, t: seq<Ch>, st: Traces)
    ensures Effect(multiset{}, t, b, st, Put(st, b, t))
  {
  }

  /** Taking over what the builder of a subquery holds. */
  lemma EffectNested(u: multiset<Builder>, t: seq<Ch>, c: Builder, b: Builder, s0: Traces, s1: Traces)
    requires Effect(u, t, c, s0, s1) && |t| > 0 && b != c && b !in u
    ensures Effect(u + multiset{c}, InParens(t), b, s0, Put(s1, b, InParens(Held(s1, c))))
  {
    var s2 := Put(s1, b, InParens(Held(s1, c)));
    var v := u + multiset{c};
    hide InParens;
    ParensLength(t);
    ParensLength(Held(s1, c));
    assert FirstUse(v, s0) <==> FirstUse(u, s0) && |Held(s0, c)| == 0 by {
      FirstUseMore(u, c, s0);
    }
    forall d | d in v ensures |Held(s2, d)| > |Held(s0, d)| {
      assert d == c || d in u;
    }
    if FirstUse(v, s0) {
      assert Held(s0, c) + t == t;
    }
  }

  lemma FirstUseMore(u: multiset<Builder>, c: Builder, st: Traces)
    requires c !in u
    ensures FirstUse(u + multiset{c}, st) <==> FirstUse(u, st) && |Held(st, c)| == 0
  {
    hide Held;
    var v := u + multiset{c};
    assert c in v;
    forall d | d in u ensures d in v && v[d] == u[d] {
    }
  }

  lemma ParensLength(t: seq<Ch>)
    ensures |t| > 0 ==> |InParens(t)| == |t| + 1
  {
  }

  lemma {:induction false} PiecesTextAppend(x: Context, ps: seq<Piece>, qs: seq<Piece>)
    ensures PiecesText(x, ps + qs) == PiecesText(x, ps) + PiecesText(x, qs)
  {
    hide PieceText;
    if |ps| == 0 {
      assert ps + qs == qs;
    } else {
      assert (ps + qs)[1..] == ps[1..] + qs;
      PiecesTextAppend(x, ps[1..], qs);
    }
  }

  lemma StatementTextNotEmpty(s: Selector, w: World)
    requires s in w && Terminated(w)
    ensures |StatementText(s, w)| > 0
  {
    var ps, n := w[s], |w[s]| - 1;
    assert ps == ps[..n] + [Lit(";")];
    PiecesTextAppend(In(s, w), ps[..n], [Lit(";")]);
  }

  lemma {:induction false} PiecesEffect(x: Context, ps: seq<Piece>, b: Builder, st: Traces)
    requires Builds(x, ps) && Terminated(x.stmts) && b.level >= x.level
    ensures BelowLevel(PiecesUses(x, ps), x.level)
    ensures Effect(PiecesUses(x, ps), PiecesText(x, ps), b, st, RunPieces(x, ps, b, st).0)
    decreases x.level, 1, |ps|
  {
    hide RunPiece, PieceBuilds, PieceUses, PieceText, Effect, Builds, Terminated;
    if |ps| == 0 {
      EffectNothing(b, st);
    } else {
      BuildsCons(x, ps);
      var (st1, ok) := RunPiece(x, ps[0], b, st);
      RunPieceSucceeds(x, ps[0], b, st);
      PieceEffect(x, ps[0], b, st);
      PiecesEffect(x, ps[1..], b, st1);
      EffectTwice(PieceUses(x, ps[0]), PieceText(x, ps[0]), PiecesUses(x, ps[1..]), PiecesText(x, ps[1..]),
                  b, st, st1, RunPieces(x, ps[1..], b, st1).0);
    }
  }

  lemma {:induction false} PieceEffect(x: Context, p: Piece, b: Builder, st: Traces)
    requires PieceBuilds(x, p) && Terminated(x.stmts) && b.level >= x.level
    ensures BelowLevel(PieceUses(x, p), x.level)
    ensures Effect(PieceUses(x, p), PieceText(x, p), b, st, RunPiece(x, p, b, st).0)
    decreases x.level, 0, 0
  {
    hide Effect, StatementBuilds, Terminated, RunNested, StatementText, StatementUses;
    hide SimpleChars, SimpleBuilds, InParens;
    if !HasSubquery(p) {
      EffectPut(b, SimpleChars(x.schema, p), st);
    } else if p.operand.Nested? {
      NestedEffect(p.operand.sub.s, x.stmts, b, st);
    } else {
      var s, cs := p.operand.sub.s, Chars(p.operand.pred + " ");
      var st1 := Put(st, b, cs);
      EffectPut(b, cs, st);
      NestedEffect(s, x.stmts, b, st1);
      EffectTwice(multiset{}, cs, StatementUses(s, x.stmts) + multiset{s.b}, InParens(StatementText(s, x.stmts)),
                  b, st, st1, RunNested(s, x.stmts, b, st1).0);
      assert multiset{} + (StatementUses(s, x.stmts) + multiset{s.b}) == PieceUses(x, p);
    }
  }

  lemma {:induction false} NestedEffect(s: Selector, w: World, b: Builder, st: Traces)
    requires s in w && StatementBuilds(s, w) && Terminated(w) && b.level > s.b.level
    ensures BelowLevel(StatementUses(s, w), s.b.level)
    ensures Effect(StatementUses(s, w) + multiset{s.b}, InParens(StatementText(s, w)), b, st, RunNested(s, w, b, st).0)
    decreases s.b.level, 3, 0
  {
    hide Effect, Terminated, InParens, StatementBuilds, StatementText, StatementUses, RunStatement;
    StatementEffect(s, w, st);
    StatementTextNotEmpty(s, w);
    BuildSucceedsExactly(s, w, st);
    EffectNested(StatementUses(s, w), StatementText(s, w), s.b, b, st, RunStatement(s, w, st).0);
  }

  lemma {:induction false} StatementEffect(s: Selector, w: World, st: Traces)
    requires s in w && StatementBuilds(s, w) && Terminated(w)
    ensures BelowLevel(StatementUses(s, w), s.b.level)
    ensures Effect(StatementUses(s, w), StatementText(s, w), s.b, st, RunStatement(s, w, st).0)
    decreases s.b.level, 2, 0
  {
    hide Effect, Terminated, Builds, RunPieces, PiecesText, PiecesUses;
    PiecesEffect(In(s, w), w[s], s.b, st);
  }

  /** `Build` adds just the statement to what its builder holds, iff the builders of all its
      subqueries, at every depth, are used once in it and held nothing before. Otherwise it adds
      more. */
  lemma BuildAddsStatementExactly(s: Selector, w: World, st: Traces)
    requires s in w && StatementBuilds(s, w) && Terminated(w)
    ensures RunStatement(s, w, st).1
    ensures var was, now := Held(st, s.b), Held(RunStatement(s, w, st).0, s.b);
      && (now == was + StatementText(s, w) <==> FirstUse(StatementUses(s, w), st))
      && (!FirstUse(StatementUses(s, w), st) ==> |now| > |was| + |StatementText(s, w)|)
  {
    hide StatementBuilds, StatementText, StatementUses, RunStatement, Terminated, FirstUse;
    StatementEffect(s, w, st);
    BuildSucceedsExactly(s, w, st);
  }

  /** A selector built twice holds its statement twice, iff it has no subquery. */
  lemma BuiltTwice(s: Selector, w: World, st: Traces)
    requires s in w && StatementBuilds(s, w) && Terminated(w) && FirstUse(StatementUses(s, w), st)
    ensures var t, st1 := StatementText(s, w), RunStatement(s, w, st).0;
      Held(RunStatement(s, w, st1).0, s.b) == Held(st, s.b) + t + t <==> StatementUses(s, w) == multiset{}
  {
    hide StatementBuilds, StatementText, StatementUses, RunStatement, Terminated;
    var u, st1 := StatementUses(s, w), RunStatement(s, w, st).0;
    StatementEffect(s, w, st);
    BuildAddsStatementExactly(s, w, st);
    BuildAddsStatementExactly(s, w, st1);
    assert FirstUse(u, st1) <==> u == multiset{} by {
      if u != multiset{} {
        var c :| c in u;
        assert |Held(st1, c)| > 0;
      }
    }
  }

  lemma PutAt(st: Traces, b: Builder, cs: seq<Ch>, c: Builder)
    ensures Held(Put(st, b, cs), c) == if c == b then Held(st, b) + cs else Held(st, c)
  {
  }

  /** Building, as a subquery, a selector that writes "S;" and whose builder holds `was`. */
  lemma RunShort(s: Selector, w: World, b: Builder, st: Traces, was: string) returns (s1: Traces)
    requires s in w && w[s] == [Lit("S"), Lit(";")] && s.b.schema.ownTable.Some? && b != s.b
    requires Held(st, s.b) == Chars(was)
    ensures RunNested(s, w, b, st) == (s1, true)
    ensures Held(s1, b) == Held(st, b) + Chars("(" + was + "S)")
    ensures Held(s1, s.b) == Chars(was + "S;")
  {
    hide RunPieces, Put, Held, Ran, Chars;
    var x, c := In(s, w), s.b;
    var t1 := Put(st, c, Chars("S"));
    var t2 := Put(t1, c, Chars(";"));
    RanOne(x, c, Lit("S"), st, t1, true);
    RanOne(x, c, Lit(";"), t1, t2, true);
    RanThen(x, c, [Lit("S")], [Lit(";")], st, t1, true, t2, true);
    assert [Lit("S")] + [Lit(";")] == w[s];
    RanIs(x, c, w[s], st, t2);
    s1 := Put(t2, b, InParens(Held(t2, c)));
    forall d ensures Held(t1, d) == if d == c then Held(st, c) + Chars("S") else Held(st, d) {
      PutAt(st, c, Chars("S"), d);
    }
    forall d ensures Held(t2, d) == if d == c then Held(t1, c) + Chars(";") else Held(t1, d) {
      PutAt(t1, c, Chars(";"), d);
    }
    PutAt(t2, b, InParens(Held(t2, c)), b);
    PutAt(t2, b, InParens(Held(t2, c)), c);
    CharsAppend(was, "S");
    CharsAppend(was + "S", ";");
    assert was + "S" + ";" == was + "S;" && "(" + (was + "S") + ")" == "(" + was + "S)";
    ParensOf(was + "S");
  }

  lemma RanIs(x: Context, b: Builder, ps: seq<Piece>, s0: Traces, s1: Traces)
    requires Ran(x, b, ps, s0, s1, true)
    ensures RunPieces(x, ps, b, s0) == (s1, true)
  {
  }

  lemma ParensOf(s: string)
    ensures InParens(Chars(s) + Chars(";")) == Chars("(" + s + ")")
  {
    assert (Chars(s) + Chars(";"))[..|s|] == Chars(s);
  }

  lemma ShortText(s: Selector, w: World)
    requires s in w && w[s] == [Lit("S"), Lit(";")]
    ensures StatementText(s, w) == Chars("S;")
  {
    var x := In(s, w);
    assert [Lit("S")] + [Lit(";")] == w[s];
    PiecesTextAppend(x, [Lit("S")], [Lit(";")]);
    LitText(x, "S");
    LitText(x, ";");
  }

  lemma OnePieceText(x: Context, p: Piece)
    ensures PiecesText(x, [p]) == PieceText(x, p)
  {
    hide PieceText;
    assert [p][1..] == [];
  }

  /** So a subquery that one statement names twice is written twice in the second place. */
  lemma SubqueryUsedTwice(outer: Selector, inner: Selector, w: World, st: Traces)
    requires outer in w && inner in w && inner.b.level < outer.b.level
    requires outer.b.schema.ownTable.Some? && inner.b.schema.ownTable.Some?
    requires |Held(st, outer.b)| == 0 && |Held(st, inner.b)| == 0
    requires w[inner] == [Lit("S"), Lit(";")]
    requires var sub := Item(Nested(Subquery(inner, ""))); w[outer] == [sub, Lit(" "), sub, Lit(";")]
    ensures StatementText(outer, w) == Chars("(S) (S);")
    ensures RunStatement(outer, w, st).1 && Held(RunStatement(outer, w, st).0, outer.b) == Chars("(S) (S;S);")
  {
    hide RunPieces, Put, Held, InParens, RunNested, PiecesText, Ran, Chars;
    var x, b, c, sub := In(outer, w), outer.b, inner.b, Item(Nested(Subquery(inner, "")));
    NothingHeld(st, c);
    var s1 := RunShort(inner, w, b, st, "");
    assert "" + "S;" == "S;";
    var s2 := Put(s1, b, Chars(" "));
    PutAt(s1, b, Chars(" "), b);
    PutAt(s1, b, Chars(" "), c);
    var s3 := RunShort(inner, w, b, s2, "S;");
    var s4 := Put(s3, b, Chars(";"));
    PutAt(s3, b, Chars(";"), b);
    RanOne(x, b, sub, st, s1, true);
    RanOne(x, b, Lit(" "), s1, s2, true);
    RanOne(x, b, sub, s2, s3, true);
    RanOne(x, b, Lit(";"), s3, s4, true);
    RanThen(x, b, [sub], [Lit(" ")], st, s1, true, s2, true);
    RanThen(x, b, [sub] + [Lit(" ")], [sub], st, s2, true, s3, true);
    RanThen(x, b, [sub] + [Lit(" ")] + [sub], [Lit(";")], st, s3, true, s4, true);
    assert [sub] + [Lit(" ")] + [sub] + [Lit(";")] == w[outer];
    RanIs(x, b, w[outer], st, s4);
    UsedTwiceText(outer, inner, w);
    TextsAre(Held(st, b));
  }

  lemma NothingHeld(st: Traces, c: Builder)
    requires |Held(st, c)| == 0
    ensures Held(st, c) == Chars("")
  {
  }

  lemma TextsAre(t: seq<Ch>)
    requires |t| == 0
    ensures t + Chars("(" + "" + "S)") + Chars(" ") + Chars("(" + "S;" + "S)") + Chars(";") == Chars("(S) (S;S);")
  {
    hide Chars;
    assert "(" + "" + "S)" == "(S)" && "(" + "S;" + "S)" == "(S;S)";
    assert t + Chars("(S)") == Chars("(S)");
    CharsAppend("(S)", " ");
    CharsAppend("(S) ", "(S;S)");
    CharsAppend("(S) (S;S)", ";");
    assert "(S)" + " " == "(S) " && "(S) " + "(S;S)" == "(S) (S;S)" && "(S) (S;S)" + ";" == "(S) (S;S);";
  }

  lemma UsedTwiceText(outer: Selector, inner: Selector, w: World)
    requires outer in w && inner in w && inner.b.level < outer.b.level
    requires w[inner] == [Lit("S"), Lit(";")]
    requires var sub := Item(Nested(Subquery(inner, ""))); w[outer] == [sub, Lit(" "), sub, Lit(";")]
    ensures StatementText(outer, w) == Chars("(S) (S);")
  {
    hide PiecesText, InParens, Chars;
    var x, sub := In(outer, w), Item(Nested(Subquery(inner, "")));
    ShortText(inner, w);
    CharsAppend("S", ";");
    assert "S" + ";" == "S;";
    ParensOf("S");
    assert "(" + "S" + ")" == "(S)";
    assert PieceText(x, sub) == Chars("(S)");
    OnePieceText(x, sub);
    LitText(x, " ");
    LitText(x, ";");
    PiecesTextAppend(x, [sub] + [Lit(" ")] + [sub], [Lit(";")]);
    PiecesTextAppend(x, [sub] + [Lit(" ")], [sub]);
    PiecesTextAppend(x, [sub], [Lit(" ")]);
    assert [sub] + [Lit(" ")] + [sub] + [Lit(";")] == w[outer];
    CharsAppend("(S)", " ");
    CharsAppend("(S) ", "(S)");
    CharsAppend("(S) (S)", ";");
    assert "(S)" + " " == "(S) " && "(S) " + "(S)" == "(S) (S)" && "(S) (S)" + ";" == "(S) (S);";
  }

  lemma FirstPiece(x: Context, p: Piece, ps: seq<Piece>)
    ensures PiecesText(x, [p] + ps) == PieceText(x, p) + PiecesText(x, ps)
    ensures PiecesUses(x, [p] + ps) == PieceUses(x, p) + PiecesUses(x, ps)
  {
    hide PieceText, PieceUses;
    assert ([p] + ps)[1..] == ps;
  }

  /** Fixed text before other pieces that are fixed text together. */
  lemma LitBefore(x: Context, s: string, ps: seq<Piece>, r: string)
    requires PiecesText(x, ps) == Chars(r)
    ensures PiecesText(x, [Lit(s)] + ps) == Chars(s + r) && PiecesUses(x, [Lit(s)] + ps) == PiecesUses(x, ps)
  {
    hide PiecesText, PiecesUses, Chars;
    FirstPiece(x, Lit(s), ps);
    CharsAppend(s, r);
  }

  /** A selector of everything from its own table. */
  lemma SelectAll(s: Selector, w: World, table: Name)
    requires s in w && s.b.schema.ownTable == Some(table)
    requires w[s] == [Lit("SELECT "), Lit("*"), Lit(" FROM "), OwnTable, Lit(";")]
    ensures StatementText(s, w) == Chars("SELECT " + ("*" + (" FROM " + (Quoted(table) + ";"))))
    ensures StatementUses(s, w) == multiset{}
  {
    hide PiecesText, PiecesUses, Chars, Quoted;
    var x := In(s, w);
    NoPieces(x);
    LitBefore(x, ";", [], "");
    assert ";" + "" == ";" && [Lit(";")] + [] == [Lit(";")];
    FirstPiece(x, OwnTable, [Lit(";")]);
    CharsAppend(Quoted(table), ";");
    LitBefore(x, " FROM ", [OwnTable] + [Lit(";")], Quoted(table) + ";");
    LitBefore(x, "*", [Lit(" FROM ")] + ([OwnTable] + [Lit(";")]), " FROM " + (Quoted(table) + ";"));
    LitBefore(x, "SELECT ", [Lit("*")] + ([Lit(" FROM ")] + ([OwnTable] + [Lit(";")])),
              "*" + (" FROM " + (Quoted(table) + ";")));
    assert [Lit("SELECT ")] + ([Lit("*")] + ([Lit(" FROM ")] + ([OwnTable] + [Lit(";")]))) == w[s];
  }

  lemma NoPieces(x: Context)
    ensures PiecesText(x, []) == Chars("") && PiecesUses(x, []) == multiset{}
  {
  }

  /** A subquery that selects everything from its own table, as a piece. */
  lemma SelectAllPiece(x: Context, inner: Selector, table: Name, alias: string)
    requires Inside(inner, x) && inner.b.schema.ownTable == Some(table)
    requires x.stmts[inner] == [Lit("SELECT "), Lit("*"), Lit(" FROM "), OwnTable, Lit(";")]
    ensures var sub := Item(Nested(Subquery(inner, alias)));
      && PieceText(x, sub) == Chars("(SELECT * FROM " + Quoted(table) + ")")
      && PieceUses(x, sub) == multiset{inner.b}
  {
    hide PiecesText, PiecesUses, Chars, Quoted, InParens, StatementText, StatementUses;
    var q := Quoted(table);
    var r := "SELECT * FROM " + q;
    SelectAll(inner, x.stmts, table);
    assert "SELECT " + ("*" + (" FROM " + (q + ";"))) == r + ";";
    CharsAppend(r, ";");
    ParensOf(r);
    assert "(" + r + ")" == "(SELECT * FROM " + q + ")";
  }

  /** Selecting everything from a subquery that selects everything from its own table. */
  lemma SelectFromSubquery(outer: Selector, inner: Selector, w: World, table: Name, alias: string)
    requires outer in w && inner in w && inner.b.level < outer.b.level && inner.b.schema.ownTable == Some(table)
    requires w[inner] == [Lit("SELECT "), Lit("*"), Lit(" FROM "), OwnTable, Lit(";")]
    requires w[outer] == [Lit("SELECT "), Lit("*"), Lit(" FROM "), Item(Nested(Subquery(inner, alias))),
                          Lit(" AS "), Lit(Quoted(alias)), Lit(";")]
    ensures StatementUses(outer, w) == multiset{inner.b}
    ensures StatementText(outer, w) ==
      Chars("SELECT * FROM (SELECT * FROM " + Quoted(table) + ") AS " + Quoted(alias) + ";")
  {
    hide PiecesText, PiecesUses, Chars, Quoted, PieceText, PieceUses;
    var x, sub := In(outer, w), Item(Nested(Subquery(inner, alias)));
    var body, tail := "(SELECT * FROM " + Quoted(table) + ")", " AS " + (Quoted(alias) + ";");
    SelectAllPiece(x, inner, table, alias);
    var ps := AliasEnd(x, alias);
    FirstPiece(x, sub, ps);
    CharsAppend(body, tail);
    LitBefore(x, " FROM ", [sub] + ps, body + tail);
    LitBefore(x, "*", [Lit(" FROM ")] + ([sub] + ps), " FROM " + (body + tail));
    LitBefore(x, "SELECT ", [Lit("*")] + ([Lit(" FROM ")] + ([sub] + ps)), "*" + (" FROM " + (body + tail)));
    assert [Lit("SELECT ")] + ([Lit("*")] + ([Lit(" FROM ")] + ([sub] + ps))) == w[outer];
    SameText(Quoted(table), Quoted(alias));
  }

  lemma AliasEnd(x: Context, alias: string) returns (ps: seq<Piece>)
    ensures ps == [Lit(" AS "), Lit(Quoted(alias)), Lit(";")]
    ensures PiecesText(x, ps) == Chars(" AS " + (Quoted(alias) + ";")) && PiecesUses(x, ps) == multiset{}
  {
    hide PiecesText, PiecesUses, Chars, Quoted;
    NoPieces(x);
    LitBefore(x, ";", [], "");
    assert ";" + "" == ";" && [Lit(";")] + [] == [Lit(";")];
    LitBefore(x, Quoted(alias), [Lit(";")], ";");
    LitBefore(x, " AS ", [Lit(Quoted(alias))] + [Lit(";")], Quoted(alias) + ";");
    ps := [Lit(" AS ")] + ([Lit(Quoted(alias))] + [Lit(";")]);
  }

  lemma SameText(q: string, a: string)
    ensures "SELECT " + ("*" + (" FROM " + (("(SELECT * FROM " + q + ")") + (" AS " + (a + ";")))))
         == "SELECT * FROM (SELECT * FROM " + q + ") AS " + a + ";"
  {
    assert "SELECT " + ("*" + (" FROM " + "(SELECT * FROM ")) == "SELECT * FROM (SELECT * FROM ";
    assert ")" + " AS " == ") AS ";
  }

  // ---------------------------------------------------------------- arguments

  /** The arguments of a statement, those of its subqueries where they stand. */
  ghost function StatementArgs(s: Selector, w: World): seq<Arg>
    requires s in w
    decreases s.b.level, 2, 0
  {
    PiecesArgs(In(s, w), w[s])
  }

  ghost function PiecesArgs(x: Context, ps: seq<Piece>): seq<Arg>
    decreases x.level, 1, |ps|
  {
    if |ps| == 0 then [] else PieceArgs(x, ps[0]) + PiecesArgs(x, ps[1..])
  }

  ghost function PieceArgs(x: Context, p: Piece): seq<Arg>
    decreases x.level, 0, 0
  {
    if HasSubquery(p) then
      if Inside(p.operand.sub.s, x) then StatementArgs(p.operand.sub.s, x.stmts) else []
    else if p.Item? && p.operand.Value? then [p.operand.val]
    else if p.Item? && p.operand.Raw? then p.operand.args
    else []
  }

  // ---------------------------------------------------------------- what may be written

  /** Names have no question mark, raw text has as many as arguments, and a subquery is one of
      the statements below the level. */
  ghost predicate PieceOk(p: Piece, x: Context)
  {
    match p
    case Lit(s) => NoMark(s)
    case Refused => true
    case TableName(_) => true
    case OwnTable => true
    case Item(Column(t, _, _)) => NoMark(AliasOf(t))
    case Item(Aggregate(t, fn, _, _)) => NoMark(AliasOf(t)) && NoMark(fn)
    case Item(Value(_)) => true
    case Item(Raw(raw, args)) => Marks(raw) == |args|
    case Item(Quantified(pred, sub)) => NoMark(pred) && Inside(sub.s, x)
    case Item(Nested(sub)) => Inside(sub.s, x)
  }

  ghost predicate PiecesOk(ps: seq<Piece>, x: Context)
  {
    forall i :: 0 <= i < |ps| ==> PieceOk(ps[i], x)
  }

  /** All statements are in order and end in a semicolon. */
  ghost predicate WorldOk(w: World)
  {
    Terminated(w) && forall s :: s in w ==> PiecesOk(w[s], In(s, w))
  }

  lemma PiecesOkAppend(ps: seq<Piece>, qs: seq<Piece>, x: Context)
    ensures PiecesOk(ps + qs, x) <==> PiecesOk(ps, x) && PiecesOk(qs, x)
  {
    hide PieceOk;
    forall i | 0 <= i < |ps| ensures (ps + qs)[i] == ps[i] {
    }
    forall i | 0 <= i < |qs| ensures (ps + qs)[|ps| + i] == qs[i] {
    }
  }

  /** The arguments in the text of a statement are those of its values, raw texts, limit and offset
      and of its subqueries, at every depth, in the order in which the statement names them. */
  lemma {:induction false} ArgumentsInOrder(s: Selector, w: World)
    requires s in w && WorldOk(w)
    ensures ArgsOf(StatementText(s, w)) == StatementArgs(s, w)
    ensures |StatementText(s, w)| > 0 && StatementText(s, w)[|StatementText(s, w)| - 1] == Text(';')
    decreases s.b.level, 2, 0
  {
    hide PiecesText, PiecesArgs, PiecesOk, ArgsOf;
    PiecesArguments(In(s, w), w[s]);
    var ps, n := w[s], |w[s]| - 1;
    assert ps == ps[..n] + [Lit(";")];
    PiecesTextAppend(In(s, w), ps[..n], [Lit(";")]);
    LitText(In(s, w), ";");
  }

  lemma LitText(x: Context, s: string)
    ensures PiecesText(x, [Lit(s)]) == Chars(s)
  {
    assert [Lit(s)][1..] == [];
  }

  lemma {:induction false} PiecesArguments(x: Context, ps: seq<Piece>)
    requires PiecesOk(ps, x) && WorldOk(x.stmts)
    ensures ArgsOf(PiecesText(x, ps)) == PiecesArgs(x, ps)
    decreases x.level, 1, |ps|
  {
    hide PieceText, PieceArgs, PieceOk, WorldOk, ArgsOf, TextOf, Clean;
    if |ps| == 0 {
      NoArgs();
    } else {
      PieceArguments(x, ps[0]);
      PiecesArguments(x, ps[1..]);
      TextAppend(PieceText(x, ps[0]), PiecesText(x, ps[1..]));
    }
  }

  lemma NoArgs()
    ensures ArgsOf([]) == []
  {
  }

  lemma {:induction false} PieceArguments(x: Context, p: Piece)
    requires PieceOk(p, x) && WorldOk(x.stmts)
    ensures ArgsOf(PieceText(x, p)) == PieceArgs(x, p)
    decreases x.level, 0, 0
  {
    hide WorldOk, ArgsOf, TextOf, Clean, StatementText, StatementArgs, InParens, SimpleChars;
    if !HasSubquery(p) {
      SimpleArguments(x, p);
    } else {
      var t := StatementText(p.operand.sub.s, x.stmts);
      ArgumentsInOrder(p.operand.sub.s, x.stmts);
      ParensArgs(t);
      if p.operand.Quantified? {
        CharsAre(p.operand.pred + " ");
        TextAppend(Chars(p.operand.pred + " "), InParens(t));
      }
    }
  }

  lemma ParensArgs(t: seq<Ch>)
    requires |t| > 0 && t[|t| - 1].Text?
    ensures ArgsOf(InParens(t)) == ArgsOf(t)
  {
    hide ArgsOf, TextOf, Clean;
    DropLast(t);
    CharsAre("(");
    CharsAre(")");
    TextAppend(Chars("(") + t[..|t| - 1], Chars(")"));
    TextAppend(Chars("("), t[..|t| - 1]);
  }

  lemma SimpleArguments(x: Context, p: Piece)
    requires PieceOk(p, x) && !HasSubquery(p)
    ensures ArgsOf(SimpleChars(x.schema, p)) == PieceArgs(x, p)
  {
    hide ArgsOf, TextOf, Clean, Weave, ColumnText, AggregateText, NameText;
    match p
    case Lit(s) => CharsAre(s);
    case Refused => NoArgs();
    case TableName(e) => CharsAre(NameText(x.schema.table(e)));
    case OwnTable => CharsAre(NameText(x.schema.ownTable));
    case Item(Column(t, name, _)) => CharsAre(ColumnText(x.schema, t, name));
    case Item(Aggregate(t, fn, arg, _)) => CharsAre(AggregateText(x.schema, t, fn, arg));
    case Item(Value(v)) => OneHole(v);
    case Item(Raw(raw, args)) => WeaveIs(raw, args);
    case _ =>
  }

  // ---------------------------------------------------------------- builders

  class Builder {
    var sb: string
    var args: seq<Arg>
    /** What has been written, every placeholder with its argument. */
    ghost var trace: seq<Ch>
    /** Statements contain only statements of lower levels. */
    ghost const level: nat
    const schema: Schema

    constructor (schema: Schema, ghost level: nat)
      ensures Valid() && sb == "" && args == [] && trace == []
      ensures this.schema == schema && this.level == level
    {
      this.schema := schema;
      this.level := level;
      sb := "";
      args := [];
      trace := [];
    }

    /** The placeholders in the text so far match the arguments so far. */
    ghost predicate Valid()
      reads this
    {
      sb == TextOf(trace) && args == ArgsOf(trace) && Clean(trace)
    }

    ghost function Ctx(w: World): Context
    {
      Context(schema, w, level)
    }

    /** `t` is written: `text` is added to the text and `more` to the arguments. */
    method AppendText(text: string, more: seq<Arg>, ghost t: seq<Ch>, ghost w: World)
      requires AllValid(w) && this in Builders(w)
      requires text == TextOf(t) && more == ArgsOf(t) && Clean(t)
      modifies this
      ensures AllValid(w) && Snap(w) == Put(old(Snap(w)), this, t)
    {
      hide TextOf, ArgsOf, Clean, Builders;
      TextAppend(trace, t);
      sb := sb + text;
      args := args + more;
      trace := trace + t;
    }

    /** `sb.WriteString`. */
    method Write(s: string, ghost w: World)
      requires AllValid(w) && this in Builders(w) && NoMark(s)
      modifies this
      ensures AllValid(w) && Snap(w) == Put(old(Snap(w)), this, Chars(s))
    {
      hide AllValid, Snap, Builders, Put, TextOf, ArgsOf, Clean;
      CharsAre(s);
      AppendText(s, [], Chars(s), w);
    }

    /** `sb.WriteString`, for a piece of fixed text. */
    method WriteLit(s: string, ghost w: World)
      requires AllValid(w) && this in Builders(w) && NoMark(s)
      modifies this
      ensures AllValid(w) && Ran(Ctx(w), this, [Lit(s)], old(Snap(w)), Snap(w), true)
    {
      hide AllValid, Snap, Builders, Put, NoMark, Ran;
      RanOne(Ctx(w), this, Lit(s), Snap(w), Put(Snap(w), this, Chars(s)), true);
      Write(s, w);
    }

    /** `quote`. */
    method Quote(name: string, ghost w: World)
      requires AllValid(w) && this in Builders(w) && NoMark(name)
      modifies this
      ensures AllValid(w) && Snap(w) == Put(old(Snap(w)), this, Chars(Quoted(name)))
    {
      hide AllValid, Snap, Builders, Put;
      QuotedNoMark(name);
      Write(Quoted(name), w);
    }

    /** `quote`, for an alias. */
    method QuoteLit(name: string, ghost w: World)
      requires AllValid(w) && this in Builders(w) && NoMark(name)
      modifies this
      ensures AllValid(w) && Ran(Ctx(w), this, [Lit(Quoted(name))], old(Snap(w)), Snap(w), true)
    {
      hide AllValid, Snap, Builders, Put, NoMark, Ran, Quoted;
      RanOne(Ctx(w), this, Lit(Quoted(name)), Snap(w), Put(Snap(w), this, Chars(Quoted(name))), true);
      Quote(name, w);
    }

    /** `buildAs`. */
    method BuildAs(alias: string, ghost w: World)
      requires AllValid(w) && this in Builders(w) && NoMark(alias)
      modifies this
      ensures AllValid(w) && Ran(Ctx(w), this, AsPieces(alias), old(Snap(w)), Snap(w), true)
    {
      hide AllValid, Snap, Builders, NoMark, Ran;
      ghost var s0 := Snap(w);
      if alias != "" {
        FixedTexts();
        WriteLit(" AS ", w);
        ghost var s1 := Snap(w);
        QuoteLit(alias, w);
        RanThen(Ctx(w), this, [Lit(" AS ")], [Lit(Quoted(alias))], s0, s1, true, Snap(w), true);
        assert [Lit(" AS ")] + [Lit(Quoted(alias))] == AsPieces(alias);
      } else {
        RanNothing(Ctx(w), this, s0);
      }
    }

    /** `buildColumn`. If the column is unknown the alias of the table stays written. */
    method BuildColumn(t: TableRef, name: string, ghost w: World) returns (ok: bool)
      requires AllValid(w) && this in Builders(w) && NoMark(AliasOf(t))
      modifies this
      ensures AllValid(w) && (ok <==> schema.column(t, name).Some?)
      ensures Snap(w) == Put(old(Snap(w)), this, Chars(ColumnText(schema, t, name)))
    {
      hide AllValid, Snap, Builders, Put, NoMark, Quoted;
      ghost var s0 := Snap(w);
      if AliasOf(t) != "" {
        FixedTexts();
        Quote(AliasOf(t), w);
        Write(".", w);
        WroteTwice(s0, this, Quoted(AliasOf(t)), ".");
      } else {
        WroteNothing(this, w);
      }
      var colName := schema.column(t, name);
      if colName == None {
        assert ColumnText(schema, t, name) == AliasPrefix(t);
        return false;
      }
      Quote(colName.value, w);
      WroteTwice(s0, this, AliasPrefix(t), Quoted(colName.value));
      return true;
    }

    /** `buildAggregate`, up to its alias. */
    method BuildAggregate(t: TableRef, fn: string, arg: string, ghost w: World) returns (ok: bool)
      requires AllValid(w) && this in Builders(w) && NoMark(AliasOf(t)) && NoMark(fn)
      modifies this
      ensures AllValid(w) && (ok <==> schema.column(t, arg).Some?)
      ensures Snap(w) == Put(old(Snap(w)), this, Chars(AggregateText(schema, t, fn, arg)))
    {
      hide AllValid, Snap, Builders, Put, NoMark, ColumnText;
      ghost var s0 := Snap(w);
      FixedTexts();
      Write(fn, w);
      Write("(", w);
      WroteTwice(s0, this, fn, "(");
      ok := BuildColumn(t, arg, w);
      WroteTwice(s0, this, fn + "(", ColumnText(schema, t, arg));
      if ok {
        Write(")", w);
        WroteTwice(s0, this, fn + "(" + ColumnText(schema, t, arg), ")");
      } else {
        assert AggregateText(schema, t, fn, arg) == fn + "(" + ColumnText(schema, t, arg);
      }
    }

    // -------------------------------------------------------------- expressions

    /** The cases of `buildExpression` that are no binary expression. */
    method BuildOperand(l: Operand, ghost w: World) returns (ok: bool)
      requires AllValid(w) && this in Builders(w) && Closed(w) && PieceOk(Item(l), Ctx(w))
      modifies Builders(w)
      ensures AllValid(w) && Ran(Ctx(w), this, [Item(l)], old(Snap(w)), Snap(w), ok)
      decreases level, 3
    {
      hide AllValid, Snap, Builders, Closed, Put, NoMark, Ran, Weave, TextOf, ArgsOf, Clean;
      hide RunNested, ColumnText, AggregateText;
      ghost var s0 := Snap(w);
      match l {
        case Column(t, name, _) =>
          ok := BuildColumn(t, name, w);
        case Aggregate(t, fn, arg, _) =>
          ok := BuildAggregate(t, fn, arg, w);
        case Value(v) =>
          OneHole(v);
          AppendText("?", [v], [Hole(v)], w);
          ok := true;
        case Raw(raw, args) =>
          WeaveIs(raw, args);
          AppendText(raw, args, Weave(raw, args), w);
          ok := true;
        case Quantified(pred, sub) =>
          FixedTexts();
          Write(pred, w);
          Write(" ", w);
          WroteTwice(s0, this, pred, " ");
          ok := sub.s.AppendTo(this, w);
        case Nested(sub) =>
          ok := sub.s.AppendTo(this, w);
      }
      RanOne(Ctx(w), this, Item(l), s0, Snap(w), ok);
    }

    /** `buildExpression`. */
    method BuildExpression(e: Expr<Operand>, ghost w: World) returns (ok: bool)
      requires AllValid(w) && this in Builders(w) && Closed(w) && PiecesOk(ExprPieces(e), Ctx(w))
      modifies Builders(w)
      ensures AllValid(w) && Ran(Ctx(w), this, ExprPieces(e), old(Snap(w)), Snap(w), ok)
      decreases level, 5, e, 1
    {
      hide AllValid, Snap, Builders, Closed, Ran, PieceOk;
      match e {
        case Nil =>
          RanNothing(Ctx(w), this, Snap(w));
          assert ExprPieces(e) == [];
          ok := true;
        case Leaf(l) =>
          assert ExprPieces(e) == [Item(l)];
          assert PieceOk(ExprPieces(e)[0], Ctx(w));
          ok := BuildOperand(l, w);
        case Binary(_, _, _) =>
          ok := BuildBinaryExpr(e, w);
      }
    }

    /** `buildSubExpr`. */
    method BuildSubExpr(e: Expr<Operand>, ghost w: World) returns (ok: bool)
      requires AllValid(w) && this in Builders(w) && Closed(w) && PiecesOk(TokenPieces(OperandTokens(e)), Ctx(w))
      modifies Builders(w)
      ensures AllValid(w) && Ran(Ctx(w), this, TokenPieces(OperandTokens(e)), old(Snap(w)), Snap(w), ok)
      decreases level, 5, e, 2
    {
      hide AllValid, Snap, Builders, Closed, Ran, PieceOk, NoMark, Tokens;
      if !e.Binary? {
        assert OperandTokens(e) == Tokens(e);
        ok := BuildExpression(e, w);
        return;
      }
      ghost var x, s0 := Ctx(w), Snap(w);
      FixedTexts();
      ParenPieces(e);
      PiecesOkAppend([Lit("(")] + ExprPieces(e), [Lit(")")], x);
      PiecesOkAppend([Lit("(")], ExprPieces(e), x);
      WriteLit("(", w);
      ghost var s1 := Snap(w);
      ok := BuildBinaryExpr(e, w);
      ghost var s2 := Snap(w);
      RanThen(x, this, [Lit("(")], ExprPieces(e), s0, s1, true, s2, ok);
      if ok {
        WriteLit(")", w);
      }
      RanThen(x, this, [Lit("(")] + ExprPieces(e), [Lit(")")], s0, s2, ok, Snap(w), ok);
    }

    /** `buildBinaryExpr`. */
    method BuildBinaryExpr(e: Expr<Operand>, ghost w: World) returns (ok: bool)
      requires e.Binary?
      requires AllValid(w) && this in Builders(w) && Closed(w) && PiecesOk(ExprPieces(e), Ctx(w))
      modifies Builders(w)
      ensures AllValid(w) && Ran(Ctx(w), this, ExprPieces(e), old(Snap(w)), Snap(w), ok)
      decreases level, 5, e, 0
    {
      hide AllValid, Snap, Builders, Closed, Ran, PieceOk, NoMark, Tokens, OperandTokens, PiecesOk;
      ghost var x, s0 := Ctx(w), Snap(w);
      ghost var l, o, r := TokenPieces(OperandTokens(e.left)), OpPieces(e.op), RightPieces(e.right);
      BinaryPieces(e);
      PiecesOkAppend(l + o, r, x);
      PiecesOkAppend(l, o, x);
      ok := BuildSubExpr(e.left, w);
      ghost var s1 := Snap(w);
      if ok {
        WriteOp(e.op, w);
      }
      ghost var s2 := Snap(w);
      RanThen(x, this, l, o, s0, s1, ok, s2, ok);
      ghost var before := ok;
      if ok {
        ok := BuildRight(e.right, w);
      }
      RanThen(x, this, l + o, r, s0, s2, before, Snap(w), ok);
    }

    method WriteOp(op: string, ghost w: World)
      requires AllValid(w) && this in Builders(w) && PiecesOk(OpPieces(op), Ctx(w))
      modifies this
      ensures AllValid(w) && Ran(Ctx(w), this, OpPieces(op), old(Snap(w)), Snap(w), true)
    {
      hide AllValid, Snap, Builders, Ran, NoMark;
      ghost var s0 := Snap(w);
      if op != "" {
        assert PieceOk(OpPieces(op)[1], Ctx(w));
        FixedTexts();
        WriteLit(" ", w);
        ghost var s1 := Snap(w);
        WriteLit(op, w);
        RanThen(Ctx(w), this, [Lit(" ")], [Lit(op)], s0, s1, true, Snap(w), true);
        assert [Lit(" ")] + [Lit(op)] == OpPieces(op);
      } else {
        RanNothing(Ctx(w), this, s0);
      }
    }

    /** The right side of `buildBinaryExpr`. */
    method BuildRight(r: Expr<Operand>, ghost w: World) returns (ok: bool)
      requires AllValid(w) && this in Builders(w) && Closed(w) && PiecesOk(RightPieces(r), Ctx(w))
      modifies Builders(w)
      ensures AllValid(w) && Ran(Ctx(w), this, RightPieces(r), old(Snap(w)), Snap(w), ok)
      decreases level, 5, r, 3
    {
      hide AllValid, Snap, Builders, Closed, Ran, PieceOk, NoMark, OperandTokens, PiecesOk;
      ghost var s0 := Snap(w);
      if r.Nil? {
        RanNothing(Ctx(w), this, s0);
        return true;
      }
      PiecesOkAppend([Lit(" ")], TokenPieces(OperandTokens(r)), Ctx(w));
      FixedTexts();
      WriteLit(" ", w);
      ghost var s1 := Snap(w);
      ok := BuildSubExpr(r, w);
      RanThen(Ctx(w), this, [Lit(" ")], TokenPieces(OperandTokens(r)), s0, s1, true, Snap(w), ok);
    }

    /** `buildPredicates`. */
    method BuildPredicates(ps: seq<Expr<Operand>>, ghost w: World) returns (ok: bool)
      requires |ps| > 0
      requires AllValid(w) && this in Builders(w) && Closed(w) && PiecesOk(ListPieces(ps), Ctx(w))
      modifies Builders(w)
      ensures AllValid(w) && Ran(Ctx(w), this, ListPieces(ps), old(Snap(w)), Snap(w), ok)
      decreases level, 6
    {
      hide AllValid, Snap, Builders, Closed, Ran, PiecesOk;
      var p := ps[0];
      for i := 1 to |ps|
        invariant p == Conjunction(ps, i)
      {
        p := Binary(p, "AND", ps[i]);
      }
      ok := BuildExpression(p, w);
    }
  }

  lemma WroteTwice(st: Traces, b: Builder, a: string, c: string)
    ensures Put(Put(st, b, Chars(a)), b, Chars(c)) == Put(st, b, Chars(a + c))
  {
    hide Put;
    PutTwice(st, b, Chars(a), Chars(c));
    CharsAppend(a, c);
  }

  lemma WroteNothing(b: Builder, w: World)
    requires b in Builders(w)
    ensures Put(Snap(w), b, Chars("")) == Snap(w)
  {
    assert Held(Snap(w), b) + Chars("") == Held(Snap(w), b);
  }

  function OpPieces(op: string): seq<Piece>
  {
    if op == "" then [] else [Lit(" "), Lit(op)]
  }

  function RightPieces(r: Expr<Operand>): seq<Piece>
  {
    if r.Nil? then [] else [Lit(" ")] + TokenPieces(OperandTokens(r))
  }

  lemma TokenPiecesAppend(a: seq<Tok<Operand>>, b: seq<Tok<Operand>>)
    ensures TokenPieces(a + b) == TokenPieces(a) + TokenPieces(b)
  {
  }

  lemma BinaryPieces(e: Expr<Operand>)
    requires e.Binary?
    ensures ExprPieces(e) == TokenPieces(OperandTokens(e.left)) + OpPieces(e.op) + RightPieces(e.right)
  {
    hide OperandTokens;
    var a: seq<Tok<Operand>> := OperandTokens(e.left);
    var b: seq<Tok<Operand>> := if e.op == "" then [] else [Space, Op(e.op)];
    var c: seq<Tok<Operand>> := if e.right.Nil? then [] else [Space] + OperandTokens(e.right);
    TokenPiecesAppend(a + b, c);
    TokenPiecesAppend(a, b);
    TokenPiecesAppend([Space], OperandTokens(e.right));
    assert TokenPieces(b) == OpPieces(e.op);
    assert TokenPieces([Space]) == [Lit(" ")];
    assert TokenPieces(c) == RightPieces(e.right);
  }

  lemma ParenPieces(e: Expr<Operand>)
    requires e.Binary?
    ensures TokenPieces(OperandTokens(e)) == [Lit("(")] + ExprPieces(e) + [Lit(")")]
  {
    hide Tokens;
  }

  lemma OneHole(v: Arg)
    ensures TextOf([Hole(v)]) == "?" && ArgsOf([Hole(v)]) == [v] && Clean([Hole(v)])
  {
    assert ArgsTo([Hole(v)], 1) == [v];
  }

  lemma CharsAppend(a: string, b: string)
    ensures Chars(a + b) == Chars(a) + Chars(b)
  {
  }

  lemma QuotedNoMark(s: string)
    requires NoMark(s)
    ensures NoMark(Quoted(s))
  {
  }

  lemma FixedTexts()
    ensures NoMark("(") && NoMark(")") && NoMark(" ") && NoMark(",") && NoMark(".") && NoMark("*") && NoMark(";")
    ensures NoMark(" AS ") && NoMark(" USING (") && NoMark(" ON ") && NoMark("SELECT ") && NoMark(" FROM ")
    ensures NoMark(" WHERE ") && NoMark(" GROUP BY ") && NoMark(" HAVING ") && NoMark(" LIMIT ") && NoMark(" OFFSET ")
  {
  }

  // ---------------------------------------------------------------- selectors

  /** The builders of the selectors. */
  ghost function Builders(w: World): set<Builder>
  {
    set s | s in w :: s.b
  }

  ghost predicate AllValid(w: World)
    reads Builders(w)
  {
    forall b :: b in Builders(w) ==> b.Valid()
  }

  /** What the builders hold. */
  ghost function Snap(w: World): (st: Traces)
    reads Builders(w)
  {
    map b | b in Builders(w) :: b.trace
  }

  lemma SnapAt(b: Builder, w: World)
    requires b in Builders(w)
    ensures Held(Snap(w), b) == b.trace
  {
  }

  /** `w` says what its selectors are to write; they contain only selectors of `w`, of lower
      levels, and the names and raw texts in them are in order. */
  ghost predicate Closed(w: World)
    reads w.Keys
  {
    WorldOk(w) && forall s :: s in w ==> w[s] == s.Pieces()
  }

  class Selector {
    const b: Builder
    var table: TableRef
    var where: seq<Expr<Operand>>
    var having: seq<Expr<Operand>>
    var columns: seq<Operand>
    var groupBy: seq<Operand>
    var offset: int
    var limit: int

    constructor (schema: Schema, ghost level: nat)
      ensures fresh(b) && b.Valid() && b.trace == [] && b.schema == schema && b.level == level
      ensures table == NoTable && where == having == [] && columns == groupBy == [] && offset == limit == 0
    {
      b := new Builder(schema, level);
      table := NoTable;
      where, having, columns, groupBy := [], [], [], [];
      offset, limit := 0, 0;
    }

    /** The statement that the selector describes. */
    ghost function Pieces(): seq<Piece>
      reads this
    {
      [Lit("SELECT ")] + SelectPieces(columns)
      + [Lit(" FROM ")] + TablePieces(table)
      + WherePieces(" WHERE ", where)
      + GroupPieces(groupBy)
      + WherePieces(" HAVING ", having)
      + LimitPieces(" LIMIT ", limit)
      + LimitPieces(" OFFSET ", offset)
      + [Lit(";")]
    }

    /** The columns of a GROUP BY or a USING clause. */
    method BuildNames(cs: seq<Operand>, ghost w: World) returns (ok: bool)
      requires AllValid(w) && b in Builders(w) && Closed(w) && PiecesOk(NamesTo(cs, |cs|), b.Ctx(w))
      modifies Builders(w)
      ensures AllValid(w) && Ran(b.Ctx(w), b, NamesTo(cs, |cs|), old(Snap(w)), Snap(w), ok)
      decreases b.level, 6
    {
      hide AllValid, Snap, Builders, Closed, Ran, PieceOk, NoMark, PiecesOk, NamesTo;
      ghost var x, s0 := b.Ctx(w), Snap(w);
      NoNames(cs);
      RanNothing(x, b, s0);
      ok := true;
      var i := 0;
      while i < |cs| && ok
        invariant i <= |cs| && AllValid(w)
        invariant Ran(x, b, NamesTo(cs, i), s0, Snap(w), ok)
      {
        NextName(cs, i, x);
        ghost var s1 := Snap(w);
        Comma(i, w);
        ghost var s2 := Snap(w);
        RanThen(x, b, NamesTo(cs, i), CommaPieces(i), s0, s1, true, s2, true);
        ok := b.BuildOperand(cs[i], w);
        RanThen(x, b, NamesTo(cs, i) + CommaPieces(i), [Item(cs[i])], s0, s2, true, Snap(w), ok);
        i := i + 1;
      }
      if !ok {
        NamesStop(cs, i, |cs|, x, b, s0, Snap(w));
      }
    }

    method Comma(i: nat, ghost w: World)
      requires AllValid(w) && b in Builders(w)
      modifies b
      ensures AllValid(w) && Ran(b.Ctx(w), b, CommaPieces(i), old(Snap(w)), Snap(w), true)
    {
      hide AllValid, Snap, Builders, Ran, NoMark;
      RanNothing(b.Ctx(w), b, Snap(w));
      if i > 0 {
        FixedTexts();
        b.WriteLit(",", w);
      }
    }

    /** `buildColumns`. */
    method BuildColumns(ghost w: World) returns (ok: bool)
      requires AllValid(w) && b in Builders(w) && Closed(w) && PiecesOk(SelectPieces(columns), b.Ctx(w))
      modifies Builders(w)
      ensures AllValid(w) && Ran(b.Ctx(w), b, SelectPieces(columns), old(Snap(w)), Snap(w), ok)
      decreases b.level, 7
    {
      hide AllValid, Snap, Builders, Closed, Ran, PieceOk, NoMark, PiecesOk, ColumnsTo, ColumnPieces;
      ghost var x, s0 := b.Ctx(w), Snap(w);
      if |columns| == 0 {
        FixedTexts();
        b.WriteLit("*", w);
        return true;
      }
      NoColumns(columns);
      RanNothing(x, b, s0);
      ok := true;
      var i := 0;
      while i < |columns| && ok
        invariant i <= |columns| && AllValid(w)
        invariant Ran(x, b, ColumnsTo(columns, i), s0, Snap(w), ok)
      {
        NextColumn(columns, i, x);
        ghost var s1 := Snap(w);
        Comma(i, w);
        ghost var s2 := Snap(w);
        RanThen(x, b, ColumnsTo(columns, i), CommaPieces(i), s0, s1, true, s2, true);
        ok := BuildColumn(columns[i], w);
        RanThen(x, b, ColumnsTo(columns, i) + CommaPieces(i), ColumnPieces(columns[i]), s0, s2, true, Snap(w), ok);
        i := i + 1;
      }
      if !ok {
        ColumnsStop(columns, i, |columns|, x, b, s0, Snap(w));
      }
    }

    /** One selected column with its alias; it fails if it is nothing that can be selected. */
    method BuildColumn(c: Operand, ghost w: World) returns (ok: bool)
      requires AllValid(w) && b in Builders(w) && Closed(w) && PiecesOk(ColumnPieces(c), b.Ctx(w))
      modifies Builders(w)
      ensures AllValid(w) && Ran(b.Ctx(w), b, ColumnPieces(c), old(Snap(w)), Snap(w), ok)
      decreases b.level, 6
    {
      hide AllValid, Snap, Builders, Closed, Ran, PieceOk, NoMark, PiecesOk;
      ghost var x, s0 := b.Ctx(w), Snap(w);
      if !Selectable(c) {
        RanRefused(b, w);
        return false;
      }
      ColumnOk(c, x);
      ok := b.BuildOperand(c, w);
      ghost var s1 := Snap(w);
      if ok {
        b.BuildAs(ColumnAlias(c), w);
      }
      RanThen(x, b, [Item(c)], AsPieces(ColumnAlias(c)), s0, s1, ok, Snap(w), ok);
    }

    /** `buildTable`. */
    method BuildTable(t: TableRef, ghost w: World) returns (ok: bool)
      requires AllValid(w) && b in Builders(w) && Closed(w) && PiecesOk(TablePieces(t), b.Ctx(w))
      modifies Builders(w)
      ensures AllValid(w) && Ran(b.Ctx(w), b, TablePieces(t), old(Snap(w)), Snap(w), ok)
      decreases b.level, 8, t, 1
    {
      hide AllValid, Snap, Builders, Closed, Ran, NoMark, PiecesOk, Quoted;
      ghost var x, s0 := b.Ctx(w), Snap(w);
      match t {
        case NoTable =>
          ok := BuildName(b.schema.ownTable, OwnTable, w);
        case Table(entity, alias) =>
          AliasOk(t, x);
          ok := BuildName(b.schema.table(entity), TableName(entity), w);
          ghost var s1 := Snap(w);
          if ok {
            b.BuildAs(alias, w);
          }
          RanThen(x, b, [TableName(entity)], AsPieces(alias), s0, s1, ok, Snap(w), ok);
        case Join(_, _, _, _, _) =>
          ok := BuildJoin(t, w);
        case Derived(sub) =>
          AliasOk(t, x);
          ok := b.BuildOperand(Nested(sub), w);
          ghost var s1 := Snap(w);
          if ok {
            BuildSubqueryAlias(sub.alias, w);
          }
          RanThen(x, b, [Item(Nested(sub))], [Lit(" AS "), Lit(Quoted(sub.alias))], s0, s1, ok, Snap(w), ok);
          assert [Item(Nested(sub))] + [Lit(" AS "), Lit(Quoted(sub.alias))] == TablePieces(t);
      }
    }

    /** The name of a table; it fails if there is none. */
    method BuildName(name: Option<Name>, p: Piece, ghost w: World) returns (ok: bool)
      requires AllValid(w) && b in Builders(w)
      requires (p == OwnTable && name == b.schema.ownTable) || (p.TableName? && name == b.schema.table(p.entity))
      modifies b
      ensures AllValid(w) && Ran(b.Ctx(w), b, [p], old(Snap(w)), Snap(w), ok)
    {
      hide AllValid, Snap, Builders, Put, Ran, Quoted;
      ghost var s0 := Snap(w);
      ok := name != None;
      if ok {
        b.Quote(name.value, w);
      } else {
        WroteNothing(b, w);
      }
      RanOne(b.Ctx(w), b, p, s0, Snap(w), ok);
    }

    method BuildSubqueryAlias(alias: string, ghost w: World)
      requires AllValid(w) && b in Builders(w) && NoMark(alias)
      modifies b
      ensures AllValid(w)
      ensures Ran(b.Ctx(w), b, [Lit(" AS "), Lit(Quoted(alias))], old(Snap(w)), Snap(w), true)
    {
      hide AllValid, Snap, Builders, Ran, NoMark, Quoted;
      ghost var s0 := Snap(w);
      FixedTexts();
      b.WriteLit(" AS ", w);
      ghost var s1 := Snap(w);
      b.QuoteLit(alias, w);
      RanThen(b.Ctx(w), b, [Lit(" AS ")], [Lit(Quoted(alias))], s0, s1, true, Snap(w), true);
      assert [Lit(" AS ")] + [Lit(Quoted(alias))] == [Lit(" AS "), Lit(Quoted(alias))];
    }

    /** `buildJoin`. */
    method BuildJoin(t: TableRef, ghost w: World) returns (ok: bool)
      requires t.Join?
      requires AllValid(w) && b in Builders(w) && Closed(w) && PiecesOk(TablePieces(t), b.Ctx(w))
      modifies Builders(w)
      ensures AllValid(w) && Ran(b.Ctx(w), b, TablePieces(t), old(Snap(w)), Snap(w), ok)
      decreases b.level, 8, t, 0
    {
      hide AllValid, Snap, Builders, Closed, Ran, NoMark, PiecesOk, TablePieces;
      ghost var x, s0 := b.Ctx(w), Snap(w);
      JoinOk(t, x);
      FixedTexts();
      b.WriteLit("(", w);
      ghost var ps, now, was := [Lit("(")], Snap(w), true;
      ok := BuildTable(t.left, w);
      RanThen(x, b, ps, TablePieces(t.left), s0, now, was, Snap(w), ok);
      ps, now, was := ps + TablePieces(t.left), Snap(w), ok;
      if ok {
        BuildJoinType(t.typ, w);
      }
      RanThen(x, b, ps, JoinTypePieces(t.typ), s0, now, was, Snap(w), ok);
      ps, now, was := ps + JoinTypePieces(t.typ), Snap(w), ok;
      if ok {
        ok := BuildTable(t.right, w);
      }
      RanThen(x, b, ps, TablePieces(t.right), s0, now, was, Snap(w), ok);
      ps, now, was := ps + TablePieces(t.right), Snap(w), ok;
      if ok {
        ok := BuildUsing(t.using, w);
      }
      RanThen(x, b, ps, UsingPieces(t.using), s0, now, was, Snap(w), ok);
      ps, now, was := ps + UsingPieces(t.using), Snap(w), ok;
      if ok {
        ok := BuildClause(" ON ", t.on, w);
      }
      RanThen(x, b, ps, WherePieces(" ON ", t.on), s0, now, was, Snap(w), ok);
      ps, now, was := ps + WherePieces(" ON ", t.on), Snap(w), ok;
      if ok {
        b.WriteLit(")", w);
      }
      RanThen(x, b, ps, [Lit(")")], s0, now, was, Snap(w), ok);
      JoinIs(t);
    }

    method BuildJoinType(typ: string, ghost w: World)
      requires AllValid(w) && b in Builders(w) && NoMark(typ)
      modifies b
      ensures AllValid(w) && Ran(b.Ctx(w), b, JoinTypePieces(typ), old(Snap(w)), Snap(w), true)
    {
      hide AllValid, Snap, Builders, Ran, NoMark;
      ghost var x, s0 := b.Ctx(w), Snap(w);
      FixedTexts();
      b.WriteLit(" ", w);
      ghost var s1 := Snap(w);
      b.WriteLit(typ, w);
      ghost var s2 := Snap(w);
      RanThen(x, b, [Lit(" ")], [Lit(typ)], s0, s1, true, s2, true);
      b.WriteLit(" ", w);
      RanThen(x, b, [Lit(" ")] + [Lit(typ)], [Lit(" ")], s0, s2, true, Snap(w), true);
      assert [Lit(" ")] + [Lit(typ)] + [Lit(" ")] == JoinTypePieces(typ);
    }

    method BuildUsing(using: seq<string>, ghost w: World) returns (ok: bool)
      requires AllValid(w) && b in Builders(w) && Closed(w) && PiecesOk(UsingPieces(using), b.Ctx(w))
      modifies Builders(w)
      ensures AllValid(w) && Ran(b.Ctx(w), b, UsingPieces(using), old(Snap(w)), Snap(w), ok)
      decreases b.level, 7
    {
      hide AllValid, Snap, Builders, Closed, Ran, NoMark, PiecesOk, NamesTo;
      ghost var x, s0 := b.Ctx(w), Snap(w);
      if |using| == 0 {
        RanNothing(x, b, s0);
        return true;
      }
      var cs := UsingColumns(using);
      ghost var ns := NamesTo(cs, |cs|);
      PiecesOkAppend([Lit(" USING (")] + ns, [Lit(")")], x);
      PiecesOkAppend([Lit(" USING (")], ns, x);
      FixedTexts();
      b.WriteLit(" USING (", w);
      ghost var s1 := Snap(w);
      ok := BuildNames(cs, w);
      ghost var s2 := Snap(w);
      RanThen(x, b, [Lit(" USING (")], ns, s0, s1, true, s2, ok);
      if ok {
        b.WriteLit(")", w);
      }
      RanThen(x, b, [Lit(" USING (")] + ns, [Lit(")")], s0, s2, ok, Snap(w), ok);
    }

    /** A WHERE, HAVING or ON clause; nothing if there are no predicates. */
    method BuildClause(keyword: string, ps: seq<Expr<Operand>>, ghost w: World) returns (ok: bool)
      requires AllValid(w) && b in Builders(w) && Closed(w) && PiecesOk(WherePieces(keyword, ps), b.Ctx(w))
      requires NoMark(keyword)
      modifies Builders(w)
      ensures AllValid(w) && Ran(b.Ctx(w), b, WherePieces(keyword, ps), old(Snap(w)), Snap(w), ok)
      decreases b.level, 7
    {
      hide AllValid, Snap, Builders, Closed, Ran, NoMark, PiecesOk, ListPieces;
      ghost var x, s0 := b.Ctx(w), Snap(w);
      if |ps| == 0 {
        RanNothing(x, b, s0);
        return true;
      }
      PiecesOkAppend([Lit(keyword)], ListPieces(ps), x);
      b.WriteLit(keyword, w);
      ghost var s1 := Snap(w);
      ok := b.BuildPredicates(ps, w);
      RanThen(x, b, [Lit(keyword)], ListPieces(ps), s0, s1, true, Snap(w), ok);
    }

    method BuildGroupBy(ghost w: World) returns (ok: bool)
      requires AllValid(w) && b in Builders(w) && Closed(w) && PiecesOk(GroupPieces(groupBy), b.Ctx(w))
      modifies Builders(w)
      ensures AllValid(w) && Ran(b.Ctx(w), b, GroupPieces(groupBy), old(Snap(w)), Snap(w), ok)
      decreases b.level, 7
    {
      hide AllValid, Snap, Builders, Closed, Ran, NoMark, PiecesOk, NamesTo;
      ghost var x, s0 := b.Ctx(w), Snap(w);
      if |groupBy| == 0 {
        RanNothing(x, b, s0);
        return true;
      }
      ghost var ns := NamesTo(groupBy, |groupBy|);
      PiecesOkAppend([Lit(" GROUP BY ")], ns, x);
      FixedTexts();
      b.WriteLit(" GROUP BY ", w);
      ghost var s1 := Snap(w);
      ok := BuildNames(groupBy, w);
      RanThen(x, b, [Lit(" GROUP BY ")], ns, s0, s1, true, Snap(w), ok);
    }

    /** A LIMIT or OFFSET clause; nothing if the number is not positive. */
    method BuildLimit(keyword: string, n: int, ghost w: World)
      requires AllValid(w) && b in Builders(w) && NoMark(keyword)
      modifies b
      ensures AllValid(w) && Ran(b.Ctx(w), b, LimitPieces(keyword, n), old(Snap(w)), Snap(w), true)
    {
      hide AllValid, Snap, Builders, Put, Ran, NoMark, TextOf, ArgsOf, Clean;
      ghost var x, s0 := b.Ctx(w), Snap(w);
      if n > 0 {
        b.WriteLit(keyword, w);
        ghost var s1 := Snap(w);
        OneHole(Number(n));
        b.AppendText("?", [Number(n)], [Hole(Number(n))], w);
        RanOne(x, b, Item(Value(Number(n))), s1, Snap(w), true);
        RanThen(x, b, [Lit(keyword)], [Item(Value(Number(n)))], s0, s1, true, Snap(w), true);
        assert [Lit(keyword)] + [Item(Value(Number(n)))] == LimitPieces(keyword, n);
      } else {
        RanNothing(x, b, s0);
      }
    }

    /** `Build`. What all builders hold after it is what `RunStatement` says, whether it succeeds
        or not. If the builders of all subqueries are used once and held nothing, it has added
        the statement and its arguments. */
    method Build(ghost w: World) returns (ok: bool, sql: string, qargs: seq<Arg>)
      requires this in w && Closed(w) && AllValid(w)
      modifies Builders(w)
      ensures AllValid(w)
      ensures (Snap(w), ok) == RunStatement(this, w, old(Snap(w)))
      ensures ok ==> sql == b.sb && qargs == b.args
      ensures ok && FirstUse(StatementUses(this, w), old(Snap(w))) ==>
        sql == old(b.sb) + TextOf(StatementText(this, w)) && qargs == old(b.args) + StatementArgs(this, w)
      decreases b.level, 10
    {
      hide AllValid, Snap, Closed, RunStatement, FirstUse, StatementUses, StatementText, StatementArgs, TextOf;
      ghost var s0, sb0, args0 := Snap(w), b.sb, b.args;
      BeforeBuild(w);
      ok := BuildStatement(w);
      if ok {
        sql, qargs := b.sb, b.args;
        AfterBuild(w, s0, sb0, args0);
      } else {
        sql, qargs := "", [];
      }
    }

    /** The body of `Build`. */
    method BuildStatement(ghost w: World) returns (ok: bool)
      requires this in w && Closed(w) && AllValid(w)
      modifies Builders(w)
      ensures AllValid(w) && (Snap(w), ok) == RunStatement(this, w, old(Snap(w)))
      decreases b.level, 9
    {
      hide AllValid, Snap, Closed, Ran, NoMark, PiecesOk, RunPieces;
      hide Pieces, TablePieces, SelectPieces, GroupPieces, WherePieces, LimitPieces;
      if b.schema.ownTable == None {
        return false;
      }
      SectionsOk(w);
      FixedTexts();
      ghost var x, s0 := b.Ctx(w), Snap(w);
      b.WriteLit("SELECT ", w);
      ghost var ps, now, was := [Lit("SELECT ")], Snap(w), true;
      ok := BuildColumns(w);
      RanThen(x, b, ps, SelectPieces(columns), s0, now, was, Snap(w), ok);
      ps, now, was := ps + SelectPieces(columns), Snap(w), ok;
      if ok {
        b.WriteLit(" FROM ", w);
      }
      RanThen(x, b, ps, [Lit(" FROM ")], s0, now, was, Snap(w), ok);
      ps, now, was := ps + [Lit(" FROM ")], Snap(w), ok;
      if ok {
        ok := BuildTable(table, w);
      }
      RanThen(x, b, ps, TablePieces(table), s0, now, was, Snap(w), ok);
      ps, now, was := ps + TablePieces(table), Snap(w), ok;
      if ok {
        ok := BuildClauses(w);
      }
      RanThen(x, b, ps, ClausePieces(), s0, now, was, Snap(w), ok);
      PiecesAre();
      assert Ran(x, b, Pieces(), s0, Snap(w), ok);
      RanStatement(w, s0, Snap(w), ok);
    }

    /** All that comes after the table. */
    method BuildClauses(ghost w: World) returns (ok: bool)
      requires AllValid(w) && b in Builders(w) && Closed(w)
      requires PiecesOk(WherePieces(" WHERE ", where), b.Ctx(w)) && PiecesOk(WherePieces(" HAVING ", having), b.Ctx(w))
      requires PiecesOk(GroupPieces(groupBy), b.Ctx(w))
      modifies Builders(w)
      ensures AllValid(w) && Ran(b.Ctx(w), b, ClausePieces(), old(Snap(w)), Snap(w), ok)
      decreases b.level, 8
    {
      hide AllValid, Snap, Builders, Closed, Ran, NoMark, PiecesOk, GroupPieces, WherePieces, LimitPieces;
      FixedTexts();
      ghost var x, s0 := b.Ctx(w), Snap(w);
      ok := BuildClause(" WHERE ", where, w);
      ghost var ps, now, was := WherePieces(" WHERE ", where), Snap(w), ok;
      if ok {
        ok := BuildGroupBy(w);
      }
      RanThen(x, b, ps, GroupPieces(groupBy), s0, now, was, Snap(w), ok);
      ps, now, was := ps + GroupPieces(groupBy), Snap(w), ok;
      if ok {
        ok := BuildClause(" HAVING ", having, w);
      }
      RanThen(x, b, ps, WherePieces(" HAVING ", having), s0, now, was, Snap(w), ok);
      ps, now, was := ps + WherePieces(" HAVING ", having), Snap(w), ok;
      if ok {
        BuildLimit(" LIMIT ", limit, w);
      }
      RanThen(x, b, ps, LimitPieces(" LIMIT ", limit), s0, now, was, Snap(w), ok);
      ps, now, was := ps + LimitPieces(" LIMIT ", limit), Snap(w), ok;
      if ok {
        BuildLimit(" OFFSET ", offset, w);
      }
      RanThen(x, b, ps, LimitPieces(" OFFSET ", offset), s0, now, was, Snap(w), ok);
      ps, now, was := ps + LimitPieces(" OFFSET ", offset), Snap(w), ok;
      if ok {
        b.WriteLit(";", w);
      }
      RanThen(x, b, ps, [Lit(";")], s0, now, was, Snap(w), ok);
    }

    ghost function ClausePieces(): seq<Piece>
      reads this
    {
      WherePieces(" WHERE ", where) + GroupPieces(groupBy) + WherePieces(" HAVING ", having)
      + LimitPieces(" LIMIT ", limit) + LimitPieces(" OFFSET ", offset) + [Lit(";")]
    }

    lemma PiecesAre()
      ensures Pieces() ==
        [Lit("SELECT ")] + SelectPieces(columns) + [Lit(" FROM ")] + TablePieces(table) + ClausePieces()
    {
      hide TablePieces, SelectPieces, GroupPieces, WherePieces, LimitPieces;
    }

    lemma RanStatement(w: World, s0: Traces, s1: Traces, ok: bool)
      requires this in w && w[this] == Pieces() && b.schema.ownTable != None
      requires Ran(b.Ctx(w), b, Pieces(), s0, s1, ok)
      ensures (s1, ok) == RunStatement(this, w, s0)
    {
      hide Pieces, RunPieces;
    }

    /** All parts of the statement may be written. */
    lemma SectionsOk(w: World)
      requires this in w && Closed(w)
      ensures w[this] == Pieces() && b in Builders(w)
      ensures PiecesOk(SelectPieces(columns), b.Ctx(w)) && PiecesOk(TablePieces(table), b.Ctx(w))
      ensures PiecesOk(WherePieces(" WHERE ", where), b.Ctx(w)) && PiecesOk(WherePieces(" HAVING ", having), b.Ctx(w))
      ensures PiecesOk(GroupPieces(groupBy), b.Ctx(w))
    {
      hide PieceOk, TablePieces, SelectPieces, GroupPieces, WherePieces, LimitPieces, PiecesOk, Terminated;
      ghost var x := b.Ctx(w);
      var c, t, v, g := SelectPieces(columns), TablePieces(table), WherePieces(" WHERE ", where), GroupPieces(groupBy);
      var h, l, o := WherePieces(" HAVING ", having), LimitPieces(" LIMIT ", limit), LimitPieces(" OFFSET ", offset);
      var s, f := [Lit("SELECT ")], [Lit(" FROM ")];
      assert PiecesOk(Pieces(), x);
      PiecesOkAppend(s + c + f + t + v + g + h + l + o, [Lit(";")], x);
      PiecesOkAppend(s + c + f + t + v + g + h + l, o, x);
      PiecesOkAppend(s + c + f + t + v + g + h, l, x);
      PiecesOkAppend(s + c + f + t + v + g, h, x);
      PiecesOkAppend(s + c + f + t + v, g, x);
      PiecesOkAppend(s + c + f + t, v, x);
      PiecesOkAppend(s + c + f, t, x);
      PiecesOkAppend(s + c, f, x);
      PiecesOkAppend(s, c, x);
    }

    lemma BeforeBuild(w: World)
      requires this in w && AllValid(w)
      ensures b.sb == TextOf(Held(Snap(w), b)) && b.args == ArgsOf(Held(Snap(w), b))
    {
      hide TextOf, ArgsOf, Clean;
      SnapAt(b, w);
    }

    lemma AfterBuild(w: World, s0: Traces, sb: string, args: seq<Arg>)
      requires this in w && AllValid(w) && Closed(w) && (Snap(w), true) == RunStatement(this, w, s0)
      requires sb == TextOf(Held(s0, b)) && args == ArgsOf(Held(s0, b))
      ensures FirstUse(StatementUses(this, w), s0) ==>
        b.sb == sb + TextOf(StatementText(this, w)) && b.args == args + StatementArgs(this, w)
    {
      hide RunStatement, FirstUse, StatementUses, StatementText, StatementArgs, TextOf, ArgsOf, Clean, Pieces, Snap;
      hide StatementBuilds, Terminated, Held, PiecesOk;
      BeforeBuild(w);
      BuildSucceedsExactly(this, w, s0);
      BuildAddsStatementExactly(this, w, s0);
      ArgumentsInOrder(this, w);
      TextAppend(Held(s0, b), StatementText(this, w));
    }

    /** `buildSubquery`, up to its alias, for the builder `dst`. */
    method AppendTo(dst: Builder, ghost w: World) returns (ok: bool)
      requires this in w && Closed(w) && AllValid(w) && dst in Builders(w) && b.level < dst.level
      modifies Builders(w)
      ensures AllValid(w) && (Snap(w), ok) == RunNested(this, w, dst, old(Snap(w)))
      decreases b.level, 11
    {
      hide AllValid, Snap, Closed, RunStatement, FirstUse, StatementUses, StatementText, StatementArgs, TextOf, ArgsOf;
      hide Put, InParens, NoMark, Clean;
      ghost var s0 := Snap(w);
      var sql: string, qargs: seq<Arg>;
      ok, sql, qargs := Build(w);
      if ok {
        TakenOver(w, s0);
        ghost var s1, t := Snap(w), b.trace[..|b.trace| - 1];
        FixedTexts();
        dst.Write("(", w);
        dst.AppendText(sql[..|sql| - 1], qargs, t, w);
        dst.Write(")", w);
        PutTwice(s1, dst, Chars("("), t);
        PutTwice(s1, dst, Chars("(") + t, Chars(")"));
      }
    }

    /** What a builder that has just finished holds, without the semicolon at its end. */
    lemma TakenOver(w: World, s0: Traces)
      requires this in w && AllValid(w) && Closed(w) && (Snap(w), true) == RunStatement(this, w, s0)
      ensures |b.trace| > 0 && |b.sb| > 0
      ensures var t := b.trace[..|b.trace| - 1];
        && b.sb[..|b.sb| - 1] == TextOf(t) && b.args == ArgsOf(t) && Clean(t)
        && InParens(Held(Snap(w), b)) == Chars("(") + t + Chars(")")
    {
      hide RunStatement, TextOf, ArgsOf, Clean, Pieces, Snap, Terminated, PiecesOk;
      EndsInSemicolon(this, w, s0);
      SnapAt(b, w);
      DropLast(b.trace);
      TextLength(b.trace);
    }
  }

  lemma TextLength(t: seq<Ch>)
    ensures |TextOf(t)| == |t|
  {
  }

  lemma EndsInSemicolon(s: Selector, w: World, st: Traces)
    requires s in w && Terminated(w) && RunStatement(s, w, st).1
    ensures var t := Held(RunStatement(s, w, st).0, s.b); |t| > 0 && t[|t| - 1] == Text(';')
  {
    hide RunPieces;
    var x, ps, n := In(s, w), w[s], |w[s]| - 1;
    assert ps == ps[..n] + [Lit(";")];
    RunAppend(x, ps[..n], [Lit(";")], s.b, st);
    var st1 := RunPieces(x, ps[..n], s.b, st).0;
    RanOne(x, s.b, Lit(";"), st1, Put(st1, s.b, Chars(";")), true);
  }

  lemma NoNames(cs: seq<Operand>)
    ensures NamesTo(cs, 0) == []
  {
  }

  /** The next element of a list of names, and that it may be written. */
  lemma NextName(cs: seq<Operand>, i: nat, x: Context)
    requires i < |cs| && PiecesOk(NamesTo(cs, |cs|), x)
    ensures NamesTo(cs, i + 1) == NamesTo(cs, i) + CommaPieces(i) + [Item(cs[i])]
    ensures PieceOk(Item(cs[i]), x)
  {
    hide PieceOk;
    NamesOk(cs, i + 1, |cs|, x);
    var ps := NamesTo(cs, i + 1);
    assert ps[|ps| - 1] == Item(cs[i]);
  }

  lemma {:induction false} NamesOk(cs: seq<Operand>, i: nat, n: nat, x: Context)
    requires i <= n <= |cs| && PiecesOk(NamesTo(cs, n), x)
    ensures PiecesOk(NamesTo(cs, i), x)
    decreases n
  {
    hide PiecesOk;
    if i < n {
      PiecesOkAppend(NamesTo(cs, n - 1) + CommaPieces(n - 1), [Item(cs[n - 1])], x);
      PiecesOkAppend(NamesTo(cs, n - 1), CommaPieces(n - 1), x);
      NamesOk(cs, i, n - 1, x);
    }
  }

  /** Where writing a list of names stops, the whole list stops. */
  lemma {:induction false} NamesStop(cs: seq<Operand>, i: nat, n: nat, x: Context, b: Builder, s0: Traces, s1: Traces)
    requires i <= n <= |cs| && Ran(x, b, NamesTo(cs, i), s0, s1, false)
    ensures Ran(x, b, NamesTo(cs, n), s0, s1, false)
    decreases n
  {
    hide Ran;
    if i < n {
      NamesStop(cs, i, n - 1, x, b, s0, s1);
      RanThen(x, b, NamesTo(cs, n - 1), CommaPieces(n - 1), s0, s1, false, s1, false);
      RanThen(x, b, NamesTo(cs, n - 1) + CommaPieces(n - 1), [Item(cs[n - 1])], s0, s1, false, s1, false);
    }
  }

  lemma NoColumns(cs: seq<Operand>)
    ensures ColumnsTo(cs, 0) == []
  {
  }

  /** The next selected column, and that it may be written. */
  lemma NextColumn(cs: seq<Operand>, i: nat, x: Context)
    requires i < |cs| && PiecesOk(ColumnsTo(cs, |cs|), x)
    ensures ColumnsTo(cs, i + 1) == ColumnsTo(cs, i) + CommaPieces(i) + ColumnPieces(cs[i])
    ensures PiecesOk(ColumnPieces(cs[i]), x)
  {
    hide PiecesOk, ColumnPieces;
    ColumnsOk(cs, i + 1, |cs|, x);
    PiecesOkAppend(ColumnsTo(cs, i) + CommaPieces(i), ColumnPieces(cs[i]), x);
  }

  lemma {:induction false} ColumnsOk(cs: seq<Operand>, i: nat, n: nat, x: Context)
    requires i <= n <= |cs| && PiecesOk(ColumnsTo(cs, n), x)
    ensures PiecesOk(ColumnsTo(cs, i), x)
    decreases n
  {
    hide PiecesOk, ColumnPieces;
    if i < n {
      PiecesOkAppend(ColumnsTo(cs, n - 1) + CommaPieces(n - 1), ColumnPieces(cs[n - 1]), x);
      PiecesOkAppend(ColumnsTo(cs, n - 1), CommaPieces(n - 1), x);
      ColumnsOk(cs, i, n - 1, x);
    }
  }

  lemma {:induction false} ColumnsStop(cs: seq<Operand>, i: nat, n: nat, x: Context, b: Builder, s0: Traces, s1: Traces)
    requires i <= n <= |cs| && Ran(x, b, ColumnsTo(cs, i), s0, s1, false)
    ensures Ran(x, b, ColumnsTo(cs, n), s0, s1, false)
    decreases n
  {
    hide Ran, ColumnPieces;
    if i < n {
      ColumnsStop(cs, i, n - 1, x, b, s0, s1);
      RanThen(x, b, ColumnsTo(cs, n - 1), CommaPieces(n - 1), s0, s1, false, s1, false);
      RanThen(x, b, ColumnsTo(cs, n - 1) + CommaPieces(n - 1), ColumnPieces(cs[n - 1]), s0, s1, false, s1, false);
    }
  }

  lemma ColumnOk(c: Operand, x: Context)
    requires Selectable(c) && PiecesOk(ColumnPieces(c), x)
    ensures PieceOk(Item(c), x) && NoMark(ColumnAlias(c))
  {
    hide NoMark, Quoted, PieceOk;
    var ps := ColumnPieces(c);
    assert PieceOk(ps[0], x);
    if ColumnAlias(c) != "" {
      assert ps[2] == Lit(Quoted(ColumnAlias(c))) && PieceOk(ps[2], x);
      LitOk(Quoted(ColumnAlias(c)), x);
    }
    NoMarkInside(ColumnAlias(c));
  }

  lemma LitOk(s: string, x: Context)
    ensures PieceOk(Lit(s), x) <==> NoMark(s)
  {
  }

  lemma RanRefused(b: Builder, w: World)
    requires b in Builders(w)
    ensures Ran(b.Ctx(w), b, [Refused], Snap(w), Snap(w), false)
  {
    hide Ran;
    assert Held(Snap(w), b) + [] == Held(Snap(w), b);
    assert Put(Snap(w), b, []) == Snap(w);
    RanOne(b.Ctx(w), b, Refused, Snap(w), Snap(w), false);
  }

  lemma NoMarkInside(s: string)
    ensures NoMark(Quoted(s)) || s == "" ==> NoMark(s)
  {
    if '?' in s {
      var i :| 0 <= i < |s| && s[i] == '?';
      assert Quoted(s)[i + 1] == '?';
    }
  }

  lemma AliasOk(t: TableRef, x: Context)
    requires PiecesOk(TablePieces(t), x)
    ensures t.Table? ==> NoMark(t.alias)
    ensures t.Derived? ==> NoMark(t.sub.alias) && PieceOk(Item(Nested(t.sub)), x)
  {
    hide NoMark, Quoted;
    if t.Table? {
      if t.alias != "" {
        assert PieceOk(TablePieces(t)[2], x);
      }
      NoMarkInside(t.alias);
    } else if t.Derived? {
      assert PieceOk(TablePieces(t)[0], x) && PieceOk(TablePieces(t)[2], x);
      NoMarkInside(t.sub.alias);
    }
  }

  lemma JoinIs(t: TableRef)
    requires t.Join?
    ensures TablePieces(t) == [Lit("(")] + TablePieces(t.left) + JoinTypePieces(t.typ) + TablePieces(t.right)
      + UsingPieces(t.using) + WherePieces(" ON ", t.on) + [Lit(")")]
  {
  }

  lemma JoinOk(t: TableRef, x: Context)
    requires t.Join? && PiecesOk(TablePieces(t), x)
    ensures PiecesOk(TablePieces(t.left), x) && PiecesOk(TablePieces(t.right), x) && NoMark(t.typ)
    ensures PiecesOk(UsingPieces(t.using), x) && PiecesOk(WherePieces(" ON ", t.on), x)
  {
    hide TablePieces, UsingPieces, WherePieces, NoMark;
    JoinIs(t);
    var o, l, y, r := [Lit("(")], TablePieces(t.left), JoinTypePieces(t.typ), TablePieces(t.right);
    var u, w := UsingPieces(t.using), WherePieces(" ON ", t.on);
    PiecesOkAppend(o + l + y + r + u + w, [Lit(")")], x);
    PiecesOkAppend(o + l + y + r + u, w, x);
    PiecesOkAppend(o + l + y + r, u, x);
    PiecesOkAppend(o + l + y, r, x);
    PiecesOkAppend(o + l, y, x);
    PiecesOkAppend(o, l, x);
    assert PieceOk(y[1], x);
  }

  // ---------------------------------------------------------------- placeholders

  /** Placeholders match arguments in every valid builder, so after every run of `Build` calls,
      repeated or failed ones among them: there are as many of both, and the question mark that
      has `i` others before it was written for argument number `i`. */
  lemma BuilderPlaceholdersMatch(b: Builder)
    requires b.Valid()
    ensures Marks(b.sb) == |b.args| && |b.sb| == |b.trace|
    ensures forall k :: 0 <= k < |b.sb| && b.sb[k] == '?' ==>
      MarksTo(b.sb, k) < |b.args| && b.trace[k] == Hole(b.args[MarksTo(b.sb, k)])
  {
    PlaceholdersMatch(b.trace);
  }
}
