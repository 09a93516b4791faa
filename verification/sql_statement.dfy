/** The text of a SELECT statement (orm/homework3/select.go, builder.go), from the fields of its selector:
    what the pieces that the builders write spell, clause by clause. */
module SqlStatement {
  import opened Wrappers
  import opened SqlGrammar
  import opened SqlText
  import opened SqlBuilder

  function CommaList(parts: seq<seq<Ch>>): seq<Ch>
  {
    if |parts| == 0 then [] else if |parts| == 1 then parts[0] else parts[0] + [Text(',')] + CommaList(parts[1..])
  }

  lemma {:induction false} CommaListMore(parts: seq<seq<Ch>>, r: seq<Ch>)
    ensures CommaList(parts + [r]) == if |parts| == 0 then r else CommaList(parts) + [Text(',')] + r
  {
    if |parts| > 1 {
      CommaListMore(parts[1..], r);
      assert (parts + [r])[1..] == parts[1..] + [r];
    } else if |parts| == 1 {
      assert (parts + [r])[1..] == [r];
    }
  }

  /** An expression as it stands in the text: every side that is itself an operation is in
      parentheses, and there is one space before an operator and one before a right side. */
  ghost function ExprText(x: Context, e: Expr<Operand>): seq<Ch>
    decreases e, 0
  {
    match e
    case Nil => []
    case Leaf(l) => PieceText(x, Item(l))
    case Binary(l, op, r) =>
      SideText(x, l)
      + (if op == "" then [] else Chars(" " + op))
      + (if r.Nil? then [] else Chars(" ") + SideText(x, r))
  }

  ghost function SideText(x: Context, e: Expr<Operand>): seq<Ch>
    decreases e, 1
  {
    if e.Binary? then Chars("(") + ExprText(x, e) + Chars(")") else ExprText(x, e)
  }

  /** The first `n` of a list of predicates, joined by AND from left to right. */
  ghost function AllText(x: Context, ps: seq<Expr<Operand>>, n: nat): seq<Ch>
    requires 0 < n <= |ps|
  {
    if n == 1 then ExprText(x, ps[0])
    else
      (if n == 2 then SideText(x, ps[0]) else Chars("(") + AllText(x, ps, n - 1) + Chars(")"))
      + Chars(" AND")
      + (if ps[n - 1].Nil? then [] else Chars(" ") + SideText(x, ps[n - 1]))
  }

  ghost function NameParts(x: Context, cs: seq<Operand>, n: nat): (r: seq<seq<Ch>>)
    requires n <= |cs|
    ensures |r| == n && forall i :: 0 <= i < n ==> r[i] == PieceText(x, Item(cs[i]))
  {
    seq(n, i requires 0 <= i < n => PieceText(x, Item(cs[i])))
  }

  function AliasText(alias: string): seq<Ch>
  {
    if alias == "" then [] else Chars(" AS `" + alias + "`")
  }

  ghost function ColumnParts(x: Context, cs: seq<Operand>, n: nat): (r: seq<seq<Ch>>)
    requires n <= |cs|
    ensures |r| == n && forall i :: 0 <= i < n ==> r[i] == PieceText(x, Item(cs[i])) + AliasText(ColumnAlias(cs[i]))
  {
    seq(n, i requires 0 <= i < n => PieceText(x, Item(cs[i])) + AliasText(ColumnAlias(cs[i])))
  }

  ghost function TableText(x: Context, t: TableRef): seq<Ch>
  {
    match t
    case NoTable => Chars(NameText(x.schema.ownTable))
    case Table(entity, alias) => Chars(NameText(x.schema.table(entity))) + AliasText(alias)
    case Join(left, right, typ, on, using) =>
      Chars("(") + TableText(x, left) + Chars(" " + typ + " ") + TableText(x, right)
      + (if |using| == 0 then [] else
           Chars(" USING (") + CommaList(NameParts(x, UsingColumns(using), |using|)) + Chars(")"))
      + (if |on| == 0 then [] else Chars(" ON ") + AllText(x, on, |on|))
      + Chars(")")
    case Derived(sub) => PieceText(x, Item(Nested(sub))) + Chars(" AS `" + sub.alias + "`")
  }

  lemma NoChars()
    ensures Chars("") == []
  {
  }

  lemma OpTextIs(x: Context, op: string)
    ensures PiecesText(x, OpPieces(op)) == if op == "" then [] else Chars(" " + op)
  {
    hide PiecesText, Chars;
    NoPieces(x);
    NoChars();
    if op != "" {
      LitText(x, op);
      LitBefore(x, " ", [Lit(op)], op);
      assert [Lit(" ")] + [Lit(op)] == OpPieces(op);
    }
  }

  /** What the pieces of an expression spell. */
  lemma {:induction false} ExprTextIs(x: Context, e: Expr<Operand>)
    ensures PiecesText(x, ExprPieces(e)) == ExprText(x, e)
    decreases e, 0
  {
    hide PiecesText, PieceText, Chars, TokenPieces, SideText;
    match e
    case Nil =>
      NilPieces();
      NoPieces(x);
      NoChars();
    case Leaf(l) =>
      LeafPieces(l);
      OnePieceText(x, Item(l));
    case Binary(_, op, r) =>
      var a, o, b := TokenPieces(OperandTokens(e.left)), OpPieces(op), RightPieces(r);
      BinaryPieces(e);
      PiecesTextAppend(x, a + o, b);
      PiecesTextAppend(x, a, o);
      SideTextIs(x, e.left);
      OpTextIs(x, op);
      NoPieces(x);
      NoChars();
      if !r.Nil? {
        SideTextIs(x, r);
        LitText(x, " ");
        PiecesTextAppend(x, [Lit(" ")], TokenPieces(OperandTokens(r)));
      }
  }

  lemma NilPieces()
    ensures ExprPieces(Nil) == []
  {
  }

  lemma LeafPieces(l: Operand)
    ensures ExprPieces(Leaf(l)) == [Item(l)]
  {
  }

  lemma {:induction false} SideTextIs(x: Context, e: Expr<Operand>)
    ensures PiecesText(x, TokenPieces(OperandTokens(e))) == SideText(x, e)
    decreases e, 1
  {
    hide PiecesText, PieceText, Chars, TokenPieces, ExprText;
    ExprTextIs(x, e);
    if e.Binary? {
      ParenPieces(e);
      LitText(x, "(");
      LitText(x, ")");
      PiecesTextAppend(x, [Lit("(")] + ExprPieces(e), [Lit(")")]);
      PiecesTextAppend(x, [Lit("(")], ExprPieces(e));
    } else {
      assert OperandTokens(e) == Tokens(e);
    }
  }

  lemma {:induction false} AllTextIs(x: Context, ps: seq<Expr<Operand>>, n: nat)
    requires 0 < n <= |ps|
    ensures ExprText(x, Conjunction(ps, n)) == AllText(x, ps, n)
  {
    hide PieceText, Chars;
    if n > 1 {
      AllTextIs(x, ps, n - 1);
      assert " " + "AND" == " AND";
      if n == 2 {
        assert Conjunction(ps, 1) == ps[0];
      }
    }
  }

  /** What a WHERE, HAVING or ON clause spells. */
  lemma ClauseTextIs(x: Context, keyword: string, ps: seq<Expr<Operand>>)
    ensures PiecesText(x, WherePieces(keyword, ps)) ==
      if |ps| == 0 then [] else Chars(keyword) + AllText(x, ps, |ps|)
  {
    hide PiecesText, Chars, ExprText, AllText, ExprPieces;
    NoPieces(x);
    NoChars();
    if |ps| > 0 {
      PiecesTextAppend(x, [Lit(keyword)], ListPieces(ps));
      LitText(x, keyword);
      ExprTextIs(x, Conjunction(ps, |ps|));
      AllTextIs(x, ps, |ps|);
    }
  }

  lemma CommaTextIs(x: Context, i: nat)
    ensures PiecesText(x, CommaPieces(i)) == if i == 0 then [] else [Text(',')]
  {
    hide PiecesText;
    NoPieces(x);
    LitText(x, ",");
    assert Chars(",") == [Text(',')];
  }

  lemma {:induction false} NamesTextIs(x: Context, cs: seq<Operand>, n: nat)
    requires n <= |cs|
    ensures PiecesText(x, NamesTo(cs, n)) == CommaList(NameParts(x, cs, n))
  {
    hide PiecesText, PieceText, Chars, CommaList, CommaPieces;
    if n == 0 {
      NoPieces(x);
      NoChars();
      NoParts(NameParts(x, cs, 0));
    } else {
      NamesTextIs(x, cs, n - 1);
      PiecesTextAppend(x, NamesTo(cs, n - 1) + CommaPieces(n - 1), [Item(cs[n - 1])]);
      PiecesTextAppend(x, NamesTo(cs, n - 1), CommaPieces(n - 1));
      CommaTextIs(x, n - 1);
      OnePieceText(x, Item(cs[n - 1]));
      CommaListMore(NameParts(x, cs, n - 1), PieceText(x, Item(cs[n - 1])));
      assert NameParts(x, cs, n) == NameParts(x, cs, n - 1) + [PieceText(x, Item(cs[n - 1]))];
      NoParts(NameParts(x, cs, n - 1));
    }
  }

  lemma NoParts(parts: seq<seq<Ch>>)
    ensures |parts| == 0 ==> CommaList(parts) == []
  {
  }

  lemma AliasTextIs(x: Context, alias: string)
    ensures PiecesText(x, AsPieces(alias)) == AliasText(alias)
  {
    hide PiecesText, Chars;
    NoPieces(x);
    NoChars();
    if alias != "" {
      LitText(x, Quoted(alias));
      LitBefore(x, " AS ", [Lit(Quoted(alias))], Quoted(alias));
      assert [Lit(" AS ")] + [Lit(Quoted(alias))] == AsPieces(alias);
      assert " AS " + Quoted(alias) == " AS `" + alias + "`";
    }
  }

  lemma {:induction false} ColumnsTextIs(x: Context, cs: seq<Operand>, n: nat)
    requires n <= |cs| && forall i :: 0 <= i < |cs| ==> Selectable(cs[i])
    ensures PiecesText(x, ColumnsTo(cs, n)) == CommaList(ColumnParts(x, cs, n))
  {
    hide PiecesText, PieceText, Chars, CommaList, CommaPieces, AliasText, AsPieces;
    if n == 0 {
      NoPieces(x);
      NoChars();
      NoParts(ColumnParts(x, cs, 0));
    } else {
      var c := cs[n - 1];
      var part := PieceText(x, Item(c)) + AliasText(ColumnAlias(c));
      ColumnsTextIs(x, cs, n - 1);
      PiecesTextAppend(x, ColumnsTo(cs, n - 1) + CommaPieces(n - 1), ColumnPieces(c));
      PiecesTextAppend(x, ColumnsTo(cs, n - 1), CommaPieces(n - 1));
      CommaTextIs(x, n - 1);
      PiecesTextAppend(x, [Item(c)], AsPieces(ColumnAlias(c)));
      OnePieceText(x, Item(c));
      AliasTextIs(x, ColumnAlias(c));
      CommaListMore(ColumnParts(x, cs, n - 1), part);
      assert ColumnParts(x, cs, n) == ColumnParts(x, cs, n - 1) + [part];
      NoParts(ColumnParts(x, cs, n - 1));
    }
  }

  /** What the table of a statement spells. */
  lemma {:induction false} TableTextIs(x: Context, t: TableRef)
    ensures PiecesText(x, TablePieces(t)) == TableText(x, t)
  {
    hide PiecesText, PieceText, Chars, AliasText, AsPieces, Quoted, SimpleChars;
    match t
    case NoTable =>
      OnePieceText(x, OwnTable);
      TableNames(x, "");
    case Table(entity, alias) =>
      PiecesTextAppend(x, [TableName(entity)], AsPieces(alias));
      OnePieceText(x, TableName(entity));
      TableNames(x, entity);
      AliasTextIs(x, alias);
    case Derived(sub) =>
      DerivedTextIs(x, sub);
    case Join(_, _, _, _, _) =>
      TableTextIs(x, t.left);
      TableTextIs(x, t.right);
      JoinTextIs(x, t);
  }

  lemma TableNames(x: Context, entity: string)
    ensures PieceText(x, OwnTable) == Chars(NameText(x.schema.ownTable))
    ensures PieceText(x, TableName(entity)) == Chars(NameText(x.schema.table(entity)))
  {
  }

  lemma DerivedTextIs(x: Context, sub: Subquery)
    ensures PiecesText(x, TablePieces(Derived(sub))) ==
      PieceText(x, Item(Nested(sub))) + Chars(" AS `" + sub.alias + "`")
  {
    hide PiecesText, PieceText, Chars;
    var q := Quoted(sub.alias);
    LitText(x, q);
    LitBefore(x, " AS ", [Lit(q)], q);
    FirstPiece(x, Item(Nested(sub)), [Lit(" AS ")] + [Lit(q)]);
    assert [Item(Nested(sub))] + ([Lit(" AS ")] + [Lit(q)]) == TablePieces(Derived(sub));
    assert " AS " + q == " AS `" + sub.alias + "`";
  }

  lemma JoinTextIs(x: Context, t: TableRef)
    requires t.Join?
    requires PiecesText(x, TablePieces(t.left)) == TableText(x, t.left)
    requires PiecesText(x, TablePieces(t.right)) == TableText(x, t.right)
    ensures PiecesText(x, TablePieces(t)) == TableText(x, t)
  {
    hide PiecesText, PieceText, Chars, TablePieces, UsingPieces, WherePieces, JoinTypePieces, CommaList, AllText;
    var o, l, y, r := [Lit("(")], TablePieces(t.left), JoinTypePieces(t.typ), TablePieces(t.right);
    var u, v, c := UsingPieces(t.using), WherePieces(" ON ", t.on), [Lit(")")];
    JoinIs(t);
    PiecesTextAppend(x, o + l + y + r + u + v, c);
    PiecesTextAppend(x, o + l + y + r + u, v);
    PiecesTextAppend(x, o + l + y + r, u);
    PiecesTextAppend(x, o + l + y, r);
    PiecesTextAppend(x, o + l, y);
    PiecesTextAppend(x, o, l);
    LitText(x, "(");
    LitText(x, ")");
    JoinTypeTextIs(x, t.typ);
    UsingTextIs(x, t.using);
    ClauseTextIs(x, " ON ", t.on);
  }

  lemma JoinTypeTextIs(x: Context, typ: string)
    ensures PiecesText(x, JoinTypePieces(typ)) == Chars(" " + typ + " ")
  {
    hide PiecesText, Chars;
    LitText(x, " ");
    LitBefore(x, typ, [Lit(" ")], " ");
    LitBefore(x, " ", [Lit(typ)] + [Lit(" ")], typ + " ");
    assert [Lit(" ")] + ([Lit(typ)] + [Lit(" ")]) == JoinTypePieces(typ);
    assert " " + (typ + " ") == " " + typ + " ";
  }

  lemma UsingTextIs(x: Context, using: seq<string>)
    ensures PiecesText(x, UsingPieces(using)) == if |using| == 0 then [] else
      Chars(" USING (") + CommaList(NameParts(x, UsingColumns(using), |using|)) + Chars(")")
  {
    hide PiecesText, PieceText, Chars, CommaList, NamesTo;
    NoPieces(x);
    NoChars();
    if |using| > 0 {
      var cs := UsingColumns(using);
      var ns := NamesTo(cs, |cs|);
      PiecesTextAppend(x, [Lit(" USING (")] + ns, [Lit(")")]);
      PiecesTextAppend(x, [Lit(" USING (")], ns);
      LitText(x, " USING (");
      LitText(x, ")");
      NamesTextIs(x, cs, |cs|);
    }
  }

  lemma GroupTextIs(x: Context, cs: seq<Operand>)
    ensures PiecesText(x, GroupPieces(cs)) ==
      if |cs| == 0 then [] else Chars(" GROUP BY ") + CommaList(NameParts(x, cs, |cs|))
  {
    hide PiecesText, PieceText, Chars, CommaList, NamesTo;
    NoPieces(x);
    NoChars();
    if |cs| > 0 {
      PiecesTextAppend(x, [Lit(" GROUP BY ")], NamesTo(cs, |cs|));
      LitText(x, " GROUP BY ");
      NamesTextIs(x, cs, |cs|);
    }
  }

  lemma LimitTextIs(x: Context, keyword: string, n: int)
    ensures PiecesText(x, LimitPieces(keyword, n)) == if n > 0 then Chars(keyword) + [Hole(Number(n))] else []
  {
    hide PiecesText, Chars;
    NoPieces(x);
    NoChars();
    if n > 0 {
      PiecesTextAppend(x, [Lit(keyword)], [Item(Value(Number(n)))]);
      LitText(x, keyword);
      OnePieceText(x, Item(Value(Number(n))));
      assert [Lit(keyword)] + [Item(Value(Number(n)))] == LimitPieces(keyword, n);
    }
  }

  lemma SelectTextIs(x: Context, cs: seq<Operand>)
    requires forall i :: 0 <= i < |cs| ==> Selectable(cs[i])
    ensures PiecesText(x, SelectPieces(cs)) == if |cs| == 0 then Chars("*") else CommaList(ColumnParts(x, cs, |cs|))
  {
    hide PiecesText, PieceText, Chars, CommaList, ColumnsTo;
    LitText(x, "*");
    ColumnsTextIs(x, cs, |cs|);
  }

  /** The text of a statement, with its arguments, from the fields of its selector: each clause with
      its keyword, in this order, and only if there is something in it. */
  lemma StatementIs(s: Selector, w: World)
    requires s in w && w[s] == s.Pieces()
    requires forall i :: 0 <= i < |s.columns| ==> Selectable(s.columns[i])
    ensures var x := SqlBuilder.In(s, w);
      StatementText(s, w) ==
        Chars("SELECT ") + (if |s.columns| == 0 then Chars("*") else CommaList(ColumnParts(x, s.columns, |s.columns|)))
        + Chars(" FROM ") + TableText(x, s.table)
        + (if |s.where| == 0 then [] else Chars(" WHERE ") + AllText(x, s.where, |s.where|))
        + (if |s.groupBy| == 0 then [] else Chars(" GROUP BY ") + CommaList(NameParts(x, s.groupBy, |s.groupBy|)))
        + (if |s.having| == 0 then [] else Chars(" HAVING ") + AllText(x, s.having, |s.having|))
        + (if s.limit > 0 then Chars(" LIMIT ") + [Hole(Number(s.limit))] else [])
        + (if s.offset > 0 then Chars(" OFFSET ") + [Hole(Number(s.offset))] else [])
        + Chars(";")
  {
    hide PiecesText, PieceText, Chars, CommaList, AllText, TableText;
    hide SelectPieces, TablePieces, WherePieces, GroupPieces, LimitPieces;
    var x := SqlBuilder.In(s, w);
    var c, t, v := SelectPieces(s.columns), TablePieces(s.table), WherePieces(" WHERE ", s.where);
    var g, h := GroupPieces(s.groupBy), WherePieces(" HAVING ", s.having);
    var l, o := LimitPieces(" LIMIT ", s.limit), LimitPieces(" OFFSET ", s.offset);
    var a, f := [Lit("SELECT ")], [Lit(" FROM ")];
    PiecesTextAppend(x, a + c + f + t + v + g + h + l + o, [Lit(";")]);
    PiecesTextAppend(x, a + c + f + t + v + g + h + l, o);
    PiecesTextAppend(x, a + c + f + t + v + g + h, l);
    PiecesTextAppend(x, a + c + f + t + v + g, h);
    PiecesTextAppend(x, a + c + f + t + v, g);
    PiecesTextAppend(x, a + c + f + t, v);
    PiecesTextAppend(x, a + c + f, t);
    PiecesTextAppend(x, a + c, f);
    PiecesTextAppend(x, a, c);
    LitText(x, "SELECT ");
    LitText(x, " FROM ");
    LitText(x, ";");
    SelectTextIs(x, s.columns);
    TableTextIs(x, s.table);
    ClauseTextIs(x, " WHERE ", s.where);
    GroupTextIs(x, s.groupBy);
    ClauseTextIs(x, " HAVING ", s.having);
    LimitTextIs(x, " LIMIT ", s.limit);
    LimitTextIs(x, " OFFSET ", s.offset);
  }

  /** A column is its name in quotes, with the quoted alias of its table and a dot before it if there
      is one; an aggregate is its function with the column in parentheses. */
  lemma ColumnTexts(x: Context, t: TableRef, name: string, col: Name, fn: string, alias: string)
    requires x.schema.column(t, name) == Some(col)
    ensures var c := (if AliasOf(t) == "" then "" else "`" + AliasOf(t) + "`.") + "`" + col + "`";
      && PieceText(x, Item(Column(t, name, alias))) == Chars(c)
      && PieceText(x, Item(Aggregate(t, fn, name, alias))) == Chars(fn + "(" + c + ")")
  {
    hide Chars;
    ColumnTextIs(x.schema, t, name, col);
  }

  lemma ColumnTextIs(sch: Schema, t: TableRef, name: string, col: Name)
    requires sch.column(t, name) == Some(col)
    ensures ColumnText(sch, t, name) == (if AliasOf(t) == "" then "" else "`" + AliasOf(t) + "`.") + "`" + col + "`"
  {
    var a := AliasOf(t);
    assert ("`" + a + "`") + "." == "`" + a + "`.";
    assert AliasPrefix(t) + ("`" + col + "`") == AliasPrefix(t) + "`" + col + "`";
  }

  /** The name of a table is in quotes. */
  lemma TableTexts(x: Context, entity: string, name: Name)
    ensures x.schema.ownTable == Some(name) ==> PieceText(x, OwnTable) == Chars("`" + name + "`")
    ensures x.schema.table(entity) == Some(name) ==> PieceText(x, TableName(entity)) == Chars("`" + name + "`")
  {
  }

  /** A value is a placeholder. */
  lemma ValueText(x: Context, v: Arg)
    ensures PieceText(x, Item(Value(v))) == [Hole(v)]
  {
  }

  /** A subquery is its statement in parentheses without the semicolon at its end, after ANY, ALL or
      SOME and a space if it has one of them. */
  lemma SubqueryTexts(x: Context, pred: string, sub: Subquery)
    requires Inside(sub.s, x) && Terminated(x.stmts)
    ensures var q := StatementText(sub.s, x.stmts);
      && |q| > 0
      && PieceText(x, Item(Nested(sub))) == Chars("(") + q[..|q| - 1] + Chars(")")
      && PieceText(x, Item(Quantified(pred, sub))) == Chars(pred + " ") + (Chars("(") + q[..|q| - 1] + Chars(")"))
  {
    hide StatementText, Chars, Terminated;
    StatementTextNotEmpty(sub.s, x.stmts);
  }

  lemma CompareText(x: Context, left: string, l: Operand, op: string, v: Arg)
    requires PieceText(x, Item(l)) == Chars(left) && op != ""
    ensures ExprText(x, Binary(Leaf(l), op, Leaf(Value(v)))) == Chars(left + " " + op + " ") + [Hole(v)]
  {
    hide PieceText, Chars;
    ValueText(x, v);
    assert SideText(x, Leaf(l)) == Chars(left) && SideText(x, Leaf(Value(v))) == [Hole(v)];
    CharsAppend(left, " " + op);
    CharsAppend(left + (" " + op), " ");
    assert left + (" " + op) + " " == left + " " + op + " ";
  }

  lemma BothText(x: Context, p: Expr<Operand>, q: Expr<Operand>)
    requires p.Binary? && q.Binary?
    ensures AllText(x, [p, q], 2) == Chars("(") + ExprText(x, p) + Chars(") AND (") + ExprText(x, q) + Chars(")")
  {
    hide PieceText, Chars, ExprText;
    CharsAppend(")", " AND");
    CharsAppend(") AND", " ");
    CharsAppend(") AND ", "(");
    assert ")" + " AND" == ") AND" && ") AND" + " " == ") AND " && ") AND " + "(" == ") AND (";
  }

  lemma TwoInList(a: string, b: string, parts: seq<seq<Ch>>)
    requires parts == [Chars(a), Chars(b)]
    ensures CommaList(parts) == Chars(a + "," + b)
  {
    hide Chars;
    assert parts[1..] == [Chars(b)] && Chars(",") == [Text(',')] by {
      OneChar();
    }
    CharsAppend(a, ",");
    CharsAppend(a + ",", b);
  }

  lemma OneChar()
    ensures Chars(",") == [Text(',')]
  {
  }

  /** A statement with every clause: two columns with aliases, two conditions, two columns to group by,
      a condition on groups, a limit and an offset. */
  lemma EveryClause(s: Selector, w: World, u: Arg, v: Arg, a: Arg)
    requires s in w && w[s] == s.Pieces() && s.b.schema.ownTable == Some("test_model") && s.table == NoTable
    requires s.b.schema.column(NoTable, "Id") == Some("id") && s.b.schema.column(NoTable, "Age") == Some("age")
    requires s.b.schema.column(NoTable, "FirstName") == Some("first_name")
    requires s.columns == [Column(NoTable, "Id", "my_id"), Aggregate(NoTable, "AVG", "Age", "avg_age")]
    requires var age := Leaf(Column(NoTable, "Age", ""));
      s.where == [Binary(age, ">", Leaf(Value(u))), Binary(age, "<", Leaf(Value(v)))]
    requires s.groupBy == [Column(NoTable, "Age", ""), Column(NoTable, "FirstName", "")]
    requires s.having == [Binary(Leaf(Aggregate(NoTable, "AVG", "Age", "")), "=", Leaf(Value(a)))]
    requires s.limit == 20 && s.offset == 10
    ensures StatementText(s, w) ==
      Chars("SELECT ") + Chars("`id` AS `my_id`,AVG(`age`) AS `avg_age`") + Chars(" FROM ") + Chars("`test_model`")
      + (Chars(" WHERE ")
         + (Chars("(") + (Chars("`age` > ") + [Hole(u)]) + Chars(") AND (")
            + (Chars("`age` < ") + [Hole(v)]) + Chars(")")))
      + (Chars(" GROUP BY ") + Chars("`age`,`first_name`"))
      + (Chars(" HAVING ") + (Chars("AVG(`age`) = ") + [Hole(a)]))
      + (Chars(" LIMIT ") + [Hole(Number(20))])
      + (Chars(" OFFSET ") + [Hole(Number(10))])
      + Chars(";")
  {
    hide PiecesText, PieceText, Chars, CommaList, AllText, TableText, ExprText;
    var x := SqlBuilder.In(s, w);
    StatementIs(s, w);
    OwnTableText(x);
    TwoColumns(x, s.columns);
    TwoConditions(x, u, v);
    TwoGroups(x, s.groupBy);
    OneCondition(x, a);
  }

  lemma OwnTableText(x: Context)
    requires x.schema.ownTable == Some("test_model")
    ensures TableText(x, NoTable) == Chars("`test_model`")
  {
    assert Quoted("test_model") == "`test_model`";
  }

  lemma TwoColumns(x: Context, cs: seq<Operand>)
    requires cs == [Column(NoTable, "Id", "my_id"), Aggregate(NoTable, "AVG", "Age", "avg_age")]
    requires x.schema.column(NoTable, "Id") == Some("id") && x.schema.column(NoTable, "Age") == Some("age")
    ensures CommaList(ColumnParts(x, cs, 2)) == Chars("`id` AS `my_id`,AVG(`age`) AS `avg_age`")
  {
    hide PieceText, Chars, CommaList;
    ColumnTexts(x, NoTable, "Id", "id", "", "my_id");
    ColumnTexts(x, NoTable, "Age", "age", "AVG", "avg_age");
    TwoColumnNames();
    CharsAppend("`id`", " AS `my_id`");
    CharsAppend("AVG(`age`)", " AS `avg_age`");
    TwoInList("`id` AS `my_id`", "AVG(`age`) AS `avg_age`", ColumnParts(x, cs, 2));
  }

  lemma TwoColumnNames()
    ensures "" + "`" + "id" + "`" == "`id`" && "AVG" + "(" + ("" + "`" + "age" + "`") + ")" == "AVG(`age`)"
    ensures " AS `" + "my_id" + "`" == " AS `my_id`" && " AS `" + "avg_age" + "`" == " AS `avg_age`"
    ensures "`id`" + " AS `my_id`" == "`id` AS `my_id`" && "AVG(`age`)" + " AS `avg_age`" == "AVG(`age`) AS `avg_age`"
    ensures "`id` AS `my_id`" + "," + "AVG(`age`) AS `avg_age`" == "`id` AS `my_id`,AVG(`age`) AS `avg_age`"
  {
  }

  lemma TwoConditions(x: Context, u: Arg, v: Arg)
    requires x.schema.column(NoTable, "Age") == Some("age")
    ensures var age := Leaf(Column(NoTable, "Age", ""));
      AllText(x, [Binary(age, ">", Leaf(Value(u))), Binary(age, "<", Leaf(Value(v)))], 2) ==
        Chars("(") + (Chars("`age` > ") + [Hole(u)]) + Chars(") AND (") + (Chars("`age` < ") + [Hole(v)]) + Chars(")")
  {
    hide PieceText, Chars, AllText, ExprText;
    var l := Column(NoTable, "Age", "");
    ColumnTexts(x, NoTable, "Age", "age", "", "");
    assert "" + "`" + "age" + "`" == "`age`";
    CompareText(x, "`age`", l, ">", u);
    CompareText(x, "`age`", l, "<", v);
    assert "`age`" + " " + ">" + " " == "`age` > " && "`age`" + " " + "<" + " " == "`age` < ";
    BothText(x, Binary(Leaf(l), ">", Leaf(Value(u))), Binary(Leaf(l), "<", Leaf(Value(v))));
  }

  lemma TwoGroups(x: Context, cs: seq<Operand>)
    requires cs == [Column(NoTable, "Age", ""), Column(NoTable, "FirstName", "")]
    requires x.schema.column(NoTable, "Age") == Some("age")
    requires x.schema.column(NoTable, "FirstName") == Some("first_name")
    ensures CommaList(NameParts(x, cs, 2)) == Chars("`age`,`first_name`")
  {
    hide PieceText, Chars, CommaList;
    ColumnTexts(x, NoTable, "Age", "age", "", "");
    ColumnTexts(x, NoTable, "FirstName", "first_name", "", "");
    TwoGroupNames();
    TwoInList("`age`", "`first_name`", NameParts(x, cs, 2));
  }

  lemma TwoGroupNames()
    ensures "" + "`" + "age" + "`" == "`age`" && "" + "`" + "first_name" + "`" == "`first_name`"
    ensures "`age`" + "," + "`first_name`" == "`age`,`first_name`"
  {
  }

  lemma OneCondition(x: Context, a: Arg)
    requires x.schema.column(NoTable, "Age") == Some("age")
    ensures AllText(x, [Binary(Leaf(Aggregate(NoTable, "AVG", "Age", "")), "=", Leaf(Value(a)))], 1) ==
      Chars("AVG(`age`) = ") + [Hole(a)]
  {
    hide PieceText, Chars, ExprText;
    var l := Aggregate(NoTable, "AVG", "Age", "");
    ColumnTexts(x, NoTable, "Age", "age", "AVG", "");
    assert "AVG" + "(" + ("" + "`" + "age" + "`") + ")" == "AVG(`age`)";
    CompareText(x, "AVG(`age`)", l, "=", a);
    assert "AVG(`age`)" + " " + "=" + " " == "AVG(`age`) = ";
  }

  /** Two tables joined on a condition between their columns, the first one with an alias. */
  lemma JoinOn(x: Context, order: TableRef, detail: TableRef)
    requires order == Table("Order", "t1") && detail == Table("OrderDetail", "")
    requires x.schema.table("Order") == Some("order") && x.schema.table("OrderDetail") == Some("order_detail")
    requires x.schema.column(order, "Id") == Some("id") && x.schema.column(detail, "OrderId") == Some("order_id")
    ensures var on := Binary(Leaf(Column(order, "Id", "")), "=", Leaf(Column(detail, "OrderId", "")));
      TableText(x, Join(order, detail, "LEFT JOIN", [on], [])) ==
        Chars("(`order` AS `t1` LEFT JOIN `order_detail` ON `t1`.`id` = `order_id`)")
  {
    hide PieceText, Chars, AllText, CommaList, NameParts;
    var l, r := Column(order, "Id", ""), Column(detail, "OrderId", "");
    var on := Binary(Leaf(l), "=", Leaf(r));
    JoinSides(x, order, detail);
    OnText(x, order, detail);
    JoinWords();
    JoinOnWords();
    assert AllText(x, [on], 1) == ExprText(x, on) by {
      OneOfAll(x, on);
    }
    CharsAppend("(", "`order` AS `t1`");
    CharsAppend("(`order` AS `t1`", " LEFT JOIN ");
    CharsAppend("(`order` AS `t1` LEFT JOIN ", "`order_detail`");
    CharsAppend(" ON ", "`t1`.`id` = `order_id`");
    CharsAppend("(`order` AS `t1` LEFT JOIN `order_detail`", " ON `t1`.`id` = `order_id`");
    CharsAppend("(`order` AS `t1` LEFT JOIN `order_detail` ON `t1`.`id` = `order_id`", ")");
  }

  lemma OneOfAll(x: Context, p: Expr<Operand>)
    ensures AllText(x, [p], 1) == ExprText(x, p)
  {
  }

  lemma JoinSides(x: Context, order: TableRef, detail: TableRef)
    requires order == Table("Order", "t1") && detail == Table("OrderDetail", "")
    requires x.schema.table("Order") == Some("order") && x.schema.table("OrderDetail") == Some("order_detail")
    ensures TableText(x, order) == Chars("`order` AS `t1`") && TableText(x, detail) == Chars("`order_detail`")
  {
    hide Chars;
    assert Quoted("order") == "`order`" && Quoted("order_detail") == "`order_detail`";
    assert " AS `" + "t1" + "`" == " AS `t1`" && "`order`" + " AS `t1`" == "`order` AS `t1`";
    CharsAppend("`order`", " AS `t1`");
    NoChars();
    assert Chars("`order_detail`") + [] == Chars("`order_detail`");
  }

  lemma OnText(x: Context, order: TableRef, detail: TableRef)
    requires order == Table("Order", "t1") && detail == Table("OrderDetail", "")
    requires x.schema.column(order, "Id") == Some("id") && x.schema.column(detail, "OrderId") == Some("order_id")
    ensures ExprText(x, Binary(Leaf(Column(order, "Id", "")), "=", Leaf(Column(detail, "OrderId", "")))) ==
      Chars("`t1`.`id` = `order_id`")
  {
    hide PieceText, Chars;
    var l, r := Column(order, "Id", ""), Column(detail, "OrderId", "");
    ColumnTexts(x, order, "Id", "id", "", "");
    ColumnTexts(x, detail, "OrderId", "order_id", "", "");
    OnWords();
    assert SideText(x, Leaf(l)) == Chars("`t1`.`id`") && SideText(x, Leaf(r)) == Chars("`order_id`");
    CharsAppend("`t1`.`id`", " =");
    CharsAppend("`t1`.`id` =", " ");
    CharsAppend("`t1`.`id` = ", "`order_id`");
    assert Chars("`t1`.`id`") + Chars(" =") + (Chars(" ") + Chars("`order_id`")) ==
      Chars("`t1`.`id`") + Chars(" =") + Chars(" ") + Chars("`order_id`");
  }

  lemma OnWords()
    ensures "`" + "t1" + "`." + "`" + "id" + "`" == "`t1`.`id`" && "" + "`" + "order_id" + "`" == "`order_id`"
    ensures " " + "=" == " =" && "`t1`.`id`" + " =" == "`t1`.`id` =" && "`t1`.`id` =" + " " == "`t1`.`id` = "
    ensures "`t1`.`id` = " + "`order_id`" == "`t1`.`id` = `order_id`"
  {
  }

  lemma JoinWords()
    ensures " " + "LEFT JOIN" + " " == " LEFT JOIN "
    ensures "(" + "`order` AS `t1`" == "(`order` AS `t1`"
    ensures "(`order` AS `t1`" + " LEFT JOIN " == "(`order` AS `t1` LEFT JOIN "
    ensures "(`order` AS `t1` LEFT JOIN " + "`order_detail`" == "(`order` AS `t1` LEFT JOIN `order_detail`"
  {
  }

  lemma JoinOnWords()
    ensures " ON " + "`t1`.`id` = `order_id`" == " ON `t1`.`id` = `order_id`"
    ensures "(`order` AS `t1` LEFT JOIN `order_detail`" + " ON `t1`.`id` = `order_id`" ==
      "(`order` AS `t1` LEFT JOIN `order_detail` ON `t1`.`id` = `order_id`"
    ensures "(`order` AS `t1` LEFT JOIN `order_detail` ON `t1`.`id` = `order_id`" + ")" ==
      "(`order` AS `t1` LEFT JOIN `order_detail` ON `t1`.`id` = `order_id`)"
  {
  }

  /** A selector fails if one of its columns is no column, aggregate or raw text. */
  lemma CannotBeSelected(s: Selector, w: World, i: nat)
    requires s in w && w[s] == s.Pieces() && i < |s.columns|
    requires s.columns[i].Value? || s.columns[i].Quantified? || s.columns[i].Nested?
    ensures !StatementBuilds(s, w)
  {
    hide TablePieces, WherePieces, GroupPieces, LimitPieces, ColumnsTo;
    RefusedColumn(s.columns, i, |s.columns|);
    var cs := SelectPieces(s.columns);
    var k :| 0 <= k < |cs| && cs[k] == Refused;
    assert s.Pieces()[k + 1] == Refused;
    assert !PieceBuilds(SqlBuilder.In(s, w), w[s][k + 1]);
  }

  lemma {:induction false} RefusedColumn(cs: seq<Operand>, i: nat, n: nat)
    requires i < n <= |cs| && (cs[i].Value? || cs[i].Quantified? || cs[i].Nested?)
    ensures Refused in ColumnsTo(cs, n)
  {
    if i < n - 1 {
      RefusedColumn(cs, i, n - 1);
    } else {
      assert ColumnPieces(cs[i])[0] == Refused;
    }
  }
}
