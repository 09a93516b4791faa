/** The INSERT builder of orm/homework3/insert.go, without its upsert clause. */
module SqlInsert {
  import opened Wrappers
  import opened SqlText
  import Strings

  /** A field of the model: its name in Go and its column. */
  datatype Field = Field(goName: string, colName: string)

  /** What the registry says about an entity. */
  datatype Model = Model(tableName: string, fields: seq<Field>, fieldMap: map<string, Field>)

  /** A value to insert: what each of its fields holds. */
  type Row = map<string, Arg>

  datatype Outcome = Failed | Built(sql: string, args: seq<Arg>)

  function Comma(i: nat): string
  {
    if i == 0 then "" else ","
  }

  // ---------------------------------------------------------------- the statement

  /** The columns of the statement; none if one of the names is unknown. */
  function FieldsOf(m: Model, columns: seq<string>, n: nat): (r: Option<seq<Field>>)
    requires n <= |columns|
  {
    if n == 0 then Some([]) else
    match FieldsOf(m, columns, n - 1)
    case None => None
    case Some(fs) => if columns[n - 1] in m.fieldMap then Some(fs + [m.fieldMap[columns[n - 1]]]) else None
  }

  function Fields(m: Model, columns: seq<string>): Option<seq<Field>>
  {
    if |columns| == 0 then Some(m.fields) else FieldsOf(m, columns, |columns|)
  }

  function ColumnsText(fs: seq<Field>, n: nat): string
    requires n <= |fs|
  {
    if n == 0 then "" else ColumnsText(fs, n - 1) + Comma(n - 1) + Quoted(fs[n - 1].colName)
  }

  function HolesText(n: nat): string
  {
    if n == 0 then "" else HolesText(n - 1) + Comma(n - 1) + "?"
  }

  function RowsText(fields: nat, n: nat): string
  {
    if n == 0 then "" else RowsText(fields, n - 1) + Comma(n - 1) + "(" + HolesText(fields) + ")"
  }

  function InsertText(m: Model, fs: seq<Field>, rows: nat): string
  {
    "INSERT INTO " + Quoted(m.tableName) + "(" + ColumnsText(fs, |fs|) + ") VALUES" + RowsText(|fs|, rows) + ";"
  }

  predicate HasFields(row: Row, fs: seq<Field>)
  {
    forall f :: 0 <= f < |fs| ==> fs[f].goName in row
  }

  function RowArgs(row: Row, fs: seq<Field>, n: nat): (r: seq<Arg>)
    requires n <= |fs| && HasFields(row, fs)
    ensures |r| == n && forall f :: 0 <= f < n ==> r[f] == row[fs[f].goName]
  {
    if n == 0 then [] else RowArgs(row, fs, n - 1) + [row[fs[n - 1].goName]]
  }

  function RowsArgs(rows: seq<Row>, fs: seq<Field>, n: nat): (r: seq<Arg>)
    requires n <= |rows| && forall i :: 0 <= i < n ==> HasFields(rows[i], fs)
  {
    if n == 0 then [] else RowsArgs(rows, fs, n - 1) + RowArgs(rows[n - 1], fs, |fs|)
  }

  // ---------------------------------------------------------------- where a statement breaks off

  /** The first field from number `k` on that the value does not have. */
  function FirstMissing(row: Row, fs: seq<Field>, k: nat): (f: nat)
    requires k <= |fs|
    ensures k <= f <= |fs| && forall i :: k <= i < f ==> fs[i].goName in row
    ensures f < |fs| ==> fs[f].goName !in row
    decreases |fs| - k
  {
    if k == |fs| || fs[k].goName !in row then k else FirstMissing(row, fs, k + 1)
  }

  /** The first value from number `k` on that does not have all the fields. */
  function FirstIncomplete(rows: seq<Row>, fs: seq<Field>, k: nat): (r: nat)
    requires k <= |rows|
    ensures k <= r <= |rows| && forall i :: k <= i < r ==> HasFields(rows[i], fs)
    ensures r < |rows| ==> !HasFields(rows[r], fs)
    decreases |rows| - k
  {
    if k == |rows| || !HasFields(rows[k], fs) then k else FirstIncomplete(rows, fs, k + 1)
  }

  /** The text of the rows up to the first field that is missing, its placeholder included. */
  function BrokenText(rows: seq<Row>, fs: seq<Field>, r: nat): string
    requires r < |rows|
  {
    RowsText(|fs|, r) + Comma(r) + "(" + PartText(|fs|, FirstMissing(rows[r], fs, 0))
  }

  function PartText(n: nat, f: nat): string
  {
    if f < n then HolesText(f + 1) else HolesText(f)
  }

  /** The arguments before that field. */
  function BrokenArgs(rows: seq<Row>, fs: seq<Field>, r: nat): seq<Arg>
    requires r < |rows| && forall i :: 0 <= i < r ==> HasFields(rows[i], fs)
  {
    var f := FirstMissing(rows[r], fs, 0);
    RowsArgs(rows, fs, r) + RowArgs(rows[r], fs[..f], f)
  }

  // ---------------------------------------------------------------- the builder

  class Inserter {
    const model: Option<Model>
    var values: seq<Row>
    var columns: seq<string>
    var sb: string
    var args: seq<Arg>

    constructor (model: Option<Model>)
      ensures this.model == model && values == [] && columns == [] && sb == "" && args == []
    {
      this.model := model;
      values, columns, sb, args := [], [], "", [];
    }

    /** `Build`. The statement is appended to the text that is there, but the arguments start
        anew. It fails on no rows, no model, an unknown column or a value without the field, and
        leaves what it has written until then. */
    method Build() returns (r: Outcome)
      modifies this`sb, this`args
      ensures r.Built? <==>
        && |values| > 0 && model != None
        && Fields(model.value, columns) != None
        && forall i :: 0 <= i < |values| ==> HasFields(values[i], Fields(model.value, columns).value)
      ensures r.Built? ==>
        var fs := Fields(model.value, columns).value;
        && r == Built(sb, args)
        && sb == old(sb) + InsertText(model.value, fs, |values|)
        && args == RowsArgs(values, fs, |values|)
      ensures |values| == 0 || model == None ==> sb == old(sb) && args == old(args)
      ensures |values| > 0 && model != None && Fields(model.value, columns) == None ==>
        sb == old(sb) + "INSERT INTO " + Quoted(model.value.tableName) + "(" && args == old(args)
      ensures r.Failed? && |values| > 0 && model != None && Fields(model.value, columns) != None ==>
        var fs := Fields(model.value, columns).value;
        var n := FirstIncomplete(values, fs, 0);
        && n < |values|
        && sb == old(sb) + (HeadText(model.value, fs) + BrokenText(values, fs, n))
        && args == BrokenArgs(values, fs, n)
    {
      hide Fields, ColumnsText, RowsText, RowsArgs, HasFields, HeadText, FirstIncomplete, BrokenText, BrokenArgs;
      if |values| == 0 || model == None {
        return Failed;
      }
      var m := model.value;
      sb := sb + "INSERT INTO ";
      sb := sb + Quoted(m.tableName);
      sb := sb + "(";
      var f := BuildFields(m);
      if f == None {
        return Failed;
      }
      var fields := f.value;
      args := [];
      BuildColumns(fields);
      sb := sb + ") VALUES";
      ghost var head := sb;
      assert head == old(sb) + HeadText(m, fields) by {
        HeadWritten(old(sb), m, fields);
      }
      var ok := BuildRows(fields);
      if !ok {
        ghost var n := FirstIncomplete(values, fields, 0);
        assert head + BrokenText(values, fields, n) == old(sb) + (HeadText(m, fields) + BrokenText(values, fields, n));
        return Failed;
      }
      sb := sb + ";";
      InsertIs(old(sb), m, fields, |values|);
      return Built(sb, args);
    }

    method BuildFields(m: Model) returns (r: Option<seq<Field>>)
      ensures r == Fields(m, columns)
    {
      if |columns| == 0 {
        return Some(m.fields);
      }
      var fields: seq<Field> := [];
      for k := 0 to |columns|
        invariant FieldsOf(m, columns, k) == Some(fields)
      {
        if columns[k] !in m.fieldMap {
          UnknownColumn(m, columns, k, |columns|);
          return None;
        }
        fields := fields + [m.fieldMap[columns[k]]];
      }
      return Some(fields);
    }

    method BuildColumns(fields: seq<Field>)
      modifies this`sb
      ensures sb == old(sb) + ColumnsText(fields, |fields|)
    {
      ghost var head := sb;
      for k := 0 to |fields|
        invariant sb == head + ColumnsText(fields, k)
      {
        if k > 0 {
          sb := sb + ",";
        }
        sb := sb + Quoted(fields[k].colName);
      }
    }

    method BuildRows(fields: seq<Field>) returns (ok: bool)
      requires args == []
      modifies this`sb, this`args
      ensures ok <==> forall i :: 0 <= i < |values| ==> HasFields(values[i], fields)
      ensures ok ==> sb == old(sb) + RowsText(|fields|, |values|) && args == RowsArgs(values, fields, |values|)
      ensures !ok ==>
        var n := FirstIncomplete(values, fields, 0);
        n < |values| && sb == old(sb) + BrokenText(values, fields, n) && args == BrokenArgs(values, fields, n)
    {
      hide HasFields, HolesText, RowArgs, FirstMissing, PartText;
      ghost var head := sb;
      for k := 0 to |values|
        invariant forall i :: 0 <= i < k ==> HasFields(values[i], fields)
        invariant sb == head + RowsText(|fields|, k)
        invariant args == RowsArgs(values, fields, k)
      {
        if k > 0 {
          sb := sb + ",";
        }
        sb := sb + "(";
        ok := BuildRow(values[k], fields);
        if !ok {
          BrokenIs(head, values, fields, k);
          return false;
        }
        sb := sb + ")";
        RowIs(head, |fields|, k);
      }
      return true;
    }

    /** The loop over the fields of one row. */
    method BuildRow(row: Row, fields: seq<Field>) returns (ok: bool)
      modifies this`sb, this`args
      ensures ok <==> HasFields(row, fields)
      ensures ok ==> sb == old(sb) + HolesText(|fields|) && args == old(args) + RowArgs(row, fields, |fields|)
      ensures !ok ==>
        var f := FirstMissing(row, fields, 0);
        && sb == old(sb) + PartText(|fields|, f)
        && args == old(args) + RowArgs(row, fields[..f], f)
    {
      ghost var text, before := sb, args;
      ghost var done: seq<Arg> := [];
      for k := 0 to |fields|
        invariant forall f :: 0 <= f < k ==> fields[f].goName in row
        invariant |done| == k && forall f :: 0 <= f < k ==> done[f] == row[fields[f].goName]
        invariant sb == text + HolesText(k) && args == before + done
      {
        if k > 0 {
          sb := sb + ",";
        }
        sb := sb + "?";
        if fields[k].goName !in row {
          assert FirstMissing(row, fields, 0) == k;
          assert done == RowArgs(row, fields[..k], k);
          return false;
        }
        args := args + [row[fields[k].goName]];
        done := done + [row[fields[k].goName]];
      }
      assert done == RowArgs(row, fields, |fields|);
      return true;
    }
  }

  lemma HeadWritten(was: string, m: Model, fs: seq<Field>)
    ensures was + "INSERT INTO " + Quoted(m.tableName) + "(" + ColumnsText(fs, |fs|) + ") VALUES"
         == was + HeadText(m, fs)
  {
    hide Quoted, ColumnsText;
  }

  /** Where the rows break off. */
  lemma BrokenIs(head: string, rows: seq<Row>, fs: seq<Field>, k: nat)
    requires k < |rows| && !HasFields(rows[k], fs) && forall i :: 0 <= i < k ==> HasFields(rows[i], fs)
    ensures FirstIncomplete(rows, fs, 0) == k
    ensures head + RowsText(|fs|, k) + Comma(k) + "(" + PartText(|fs|, FirstMissing(rows[k], fs, 0))
         == head + BrokenText(rows, fs, k)
    ensures head + RowsText(|fs|, k) + "(" + PartText(|fs|, FirstMissing(rows[k], fs, 0))
         == head + (RowsText(|fs|, k) + "(" + PartText(|fs|, FirstMissing(rows[k], fs, 0)))
  {
    hide HasFields, RowsText, PartText, FirstMissing, Comma;
    var a, b, c := RowsText(|fs|, k), Comma(k), PartText(|fs|, FirstMissing(rows[k], fs, 0));
    assert head + a + b + "(" + c == head + (a + b + "(" + c);
  }

  lemma {:induction false} UnknownColumn(m: Model, columns: seq<string>, k: nat, n: nat)
    requires k < n <= |columns| && columns[k] !in m.fieldMap
    ensures FieldsOf(m, columns, n) == None
  {
    if k < n - 1 {
      UnknownColumn(m, columns, k, n - 1);
    }
  }

  // ---------------------------------------------------------------- placeholders and arguments

  /** Argument number r * F + f is field f of row r. */
  lemma {:induction false} ArgumentAt(rows: seq<Row>, fs: seq<Field>, n: nat, r: nat, f: nat)
    requires n <= |rows| && forall i :: 0 <= i < n ==> HasFields(rows[i], fs)
    requires r < n && f < |fs|
    ensures |RowsArgs(rows, fs, n)| == n * |fs|
    ensures 0 <= r * |fs| + f < n * |fs| && RowsArgs(rows, fs, n)[r * |fs| + f] == rows[r][fs[f].goName]
  {
    ArgumentsLength(rows, fs, n);
    ArgumentsLength(rows, fs, n - 1);
    assert n * |fs| == (n - 1) * |fs| + |fs|;
    if r < n - 1 {
      ArgumentAt(rows, fs, n - 1, r, f);
    }
  }

  lemma {:induction false} ArgumentsLength(rows: seq<Row>, fs: seq<Field>, n: nat)
    requires n <= |rows| && forall i :: 0 <= i < n ==> HasFields(rows[i], fs)
    ensures |RowsArgs(rows, fs, n)| == n * |fs|
  {
    if n > 0 {
      ArgumentsLength(rows, fs, n - 1);
      assert n * |fs| == (n - 1) * |fs| + |fs|;
    }
  }

  lemma {:induction false} MarksAppend(a: string, b: string, n: nat)
    requires n <= |a| + |b|
    ensures MarksTo(a + b, n) == if n <= |a| then MarksTo(a, n) else Marks(a) + MarksTo(b, n - |a|)
  {
    if n > 0 {
      MarksAppend(a, b, n - 1);
    }
  }

  lemma MarksOf(a: string, b: string)
    ensures Marks(a + b) == Marks(a) + Marks(b)
  {
    MarksAppend(a, b, |a| + |b|);
  }

  /** The pieces that `Build` writes, put together. */
  lemma InsertIs(was: string, m: Model, fs: seq<Field>, rows: nat)
    ensures was + "INSERT INTO " + Quoted(m.tableName) + "(" + ColumnsText(fs, |fs|) + ") VALUES"
              + RowsText(|fs|, rows) + ";"
         == was + InsertText(m, fs, rows)
  {
    hide Quoted, ColumnsText, RowsText;
    var a, b, c := Quoted(m.tableName), ColumnsText(fs, |fs|), RowsText(|fs|, rows);
    assert was + "INSERT INTO " + a + "(" + b + ") VALUES" + c + ";"
        == was + ("INSERT INTO " + a + "(" + b + ") VALUES" + c + ";");
  }

  lemma RowIs(head: string, fields: nat, k: nat)
    ensures head + RowsText(fields, k) + Comma(k) + "(" + HolesText(fields) + ")" == head + RowsText(fields, k + 1)
    ensures head + RowsText(fields, k) + "(" + HolesText(fields) + ")"
         == head + (RowsText(fields, k) + "(" + HolesText(fields) + ")")
  {
    hide HolesText;
    var a, b, c := RowsText(fields, k), Comma(k), HolesText(fields);
    assert head + a + b + "(" + c + ")" == head + (a + b + "(" + c + ")");
  }

  lemma {:induction false} NoMarkMarks(s: string, n: nat)
    requires NoMark(s) && n <= |s|
    ensures MarksTo(s, n) == 0
  {
    if n > 0 {
      NoMarkMarks(s, n - 1);
    }
  }

  lemma FixedMarks()
    ensures Marks("INSERT INTO ") == Marks("(") == Marks(")") == Marks(") VALUES") == Marks(";") == Marks(",") == 0
    ensures Marks("") == 0 && Marks("?") == 1
  {
    NoMarkMarks("INSERT INTO ", 12);
    NoMarkMarks("(", 1);
    NoMarkMarks(")", 1);
    NoMarkMarks(") VALUES", 8);
    NoMarkMarks(";", 1);
    NoMarkMarks(",", 1);
    assert MarksTo("?", 1) == MarksTo("?", 0) + 1;
  }

  lemma CommaMarks(i: nat)
    ensures Marks(Comma(i)) == 0
  {
    FixedMarks();
  }

  lemma {:induction false} HolesMarks(n: nat)
    ensures Marks(HolesText(n)) == n
  {
    hide Comma, Marks;
    FixedMarks();
    if n > 0 {
      HolesMarks(n - 1);
      CommaMarks(n - 1);
      MarksOf(HolesText(n - 1) + Comma(n - 1), "?");
      MarksOf(HolesText(n - 1), Comma(n - 1));
    }
  }

  lemma {:induction false} RowsMarks(fields: nat, n: nat)
    ensures Marks(RowsText(fields, n)) == n * fields
  {
    hide Comma, Marks, HolesText;
    FixedMarks();
    if n > 0 {
      RowsMarks(fields, n - 1);
      CommaMarks(n - 1);
      HolesMarks(fields);
      var a, b, c := RowsText(fields, n - 1), Comma(n - 1), HolesText(fields);
      MarksOf(a + b + "(" + c, ")");
      MarksOf(a + b + "(", c);
      MarksOf(a + b, "(");
      MarksOf(a, b);
      assert n * fields == (n - 1) * fields + fields;
    }
  }

  predicate SaneNames(m: Model, fs: seq<Field>)
  {
    NoMark(m.tableName) && forall f :: 0 <= f < |fs| ==> NoMark(fs[f].colName)
  }

  lemma {:induction false} ColumnsMarks(fs: seq<Field>, n: nat)
    requires n <= |fs| && forall f :: 0 <= f < n ==> NoMark(fs[f].colName)
    ensures Marks(ColumnsText(fs, n)) == 0
  {
    hide Comma, Marks, Quoted;
    FixedMarks();
    if n > 0 {
      ColumnsMarks(fs, n - 1);
      CommaMarks(n - 1);
      QuotedMarks(fs[n - 1].colName);
      MarksOf(ColumnsText(fs, n - 1) + Comma(n - 1), Quoted(fs[n - 1].colName));
      MarksOf(ColumnsText(fs, n - 1), Comma(n - 1));
    }
  }

  lemma QuotedMarks(s: string)
    requires NoMark(s)
    ensures Marks(Quoted(s)) == 0
  {
    NoMarkMarks(Quoted(s), |s| + 2);
  }

  function HeadText(m: Model, fs: seq<Field>): string
  {
    "INSERT INTO " + Quoted(m.tableName) + "(" + ColumnsText(fs, |fs|) + ") VALUES"
  }

  lemma HeadMarks(m: Model, fs: seq<Field>)
    requires SaneNames(m, fs)
    ensures Marks(HeadText(m, fs)) == 0
  {
    hide Marks, Quoted, ColumnsText;
    FixedMarks();
    QuotedMarks(m.tableName);
    ColumnsMarks(fs, |fs|);
    var a, b := Quoted(m.tableName), ColumnsText(fs, |fs|);
    MarksOf("INSERT INTO " + a + "(" + b, ") VALUES");
    MarksOf("INSERT INTO " + a + "(", b);
    MarksOf("INSERT INTO " + a, "(");
    MarksOf("INSERT INTO ", a);
  }

  /** When the placeholders of a finished statement match its arguments: iff the text that was
      there before had no placeholder. That is so for the first `Build` of an inserter; a second
      one appends to the text of the first, whose arguments are gone. */
  lemma MatchExactly(was: string, m: Model, fs: seq<Field>, rows: seq<Row>)
    requires SaneNames(m, fs) && forall i :: 0 <= i < |rows| ==> HasFields(rows[i], fs)
    ensures Marks(was + InsertText(m, fs, |rows|)) == |RowsArgs(rows, fs, |rows|)| <==> Marks(was) == 0
  {
    hide Marks, HeadText, RowsText, RowsArgs, HasFields;
    FixedMarks();
    HeadMarks(m, fs);
    RowsMarks(|fs|, |rows|);
    ArgumentsLength(rows, fs, |rows|);
    HeadIs(m, fs, |rows|);
    MarksOf(was, InsertText(m, fs, |rows|));
    MarksOf(HeadText(m, fs) + RowsText(|fs|, |rows|), ";");
    MarksOf(HeadText(m, fs), RowsText(|fs|, |rows|));
  }

  /** One row of one field, built twice: the second statement has two placeholders in its text and
      one argument. */
  lemma BuiltTwice(v: Arg)
    ensures var fs := [Field("Id", "id")];
      var m := Model("t", fs, map[]);
      var first := InsertText(m, fs, 1);
      Marks(first) == 1 && Marks(first + InsertText(m, fs, 1)) == 2 && |RowsArgs([map["Id" := v]], fs, 1)| == 1
  {
    hide Marks, InsertText, RowsArgs, HasFields;
    var fs := [Field("Id", "id")];
    var m, rows := Model("t", fs, map[]), [map["Id" := v]];
    assert SaneNames(m, fs) && HasFields(rows[0], fs) by {
      OneField(v);
    }
    NoText(m, fs);
    MatchExactly("", m, fs, rows);
    ArgumentsLength(rows, fs, 1);
    MarksOf(InsertText(m, fs, 1), InsertText(m, fs, 1));
  }

  lemma OneField(v: Arg)
    ensures SaneNames(Model("t", [Field("Id", "id")], map[]), [Field("Id", "id")])
    ensures HasFields(map["Id" := v], [Field("Id", "id")])
  {
  }

  lemma NoText(m: Model, fs: seq<Field>)
    ensures Marks("") == 0 && "" + InsertText(m, fs, 1) == InsertText(m, fs, 1)
  {
  }

  lemma HeadIs(m: Model, fs: seq<Field>, rows: nat)
    ensures InsertText(m, fs, rows) == HeadText(m, fs) + RowsText(|fs|, rows) + ";"
  {
  }

  lemma {:induction false} HolesPrefix(f: nat, n: nat)
    requires f <= n
    ensures HolesText(f) <= HolesText(n)
    decreases n
  {
    if f < n {
      HolesPrefix(f, n - 1);
    }
  }

  lemma {:induction false} RowsPrefix(fields: nat, r: nat, n: nat)
    requires r <= n
    ensures RowsText(fields, r) <= RowsText(fields, n)
    decreases n
  {
    hide HolesText;
    if r < n {
      RowsPrefix(fields, r, n - 1);
    }
  }

  /** The text before the placeholder for field `f` of row `r`. */
  function BeforeHole(m: Model, fs: seq<Field>, r: nat, f: nat): string
  {
    HeadText(m, fs) + RowsText(|fs|, r) + Comma(r) + "(" + HolesText(f) + Comma(f)
  }

  lemma RowStart(fields: nat, r: nat, f: nat)
    requires f < fields
    ensures RowsText(fields, r) + Comma(r) + "(" + HolesText(f) + Comma(f) + "?" <= RowsText(fields, r + 1)
  {
    hide Comma;
    HolesPrefix(f + 1, fields);
    var a, h := RowsText(fields, r) + Comma(r) + "(", HolesText(fields);
    assert HolesText(f + 1) == h[..|HolesText(f + 1)|];
    assert a + HolesText(f) + Comma(f) + "?" == a + HolesText(f + 1);
  }

  /** In a statement that a first `Build` made, the placeholder in row `r` at field `f` has
      r * F + f others before it, and the argument of that number is field `f` of row `r`. */
  lemma PlaceholderOfField(m: Model, fs: seq<Field>, rows: seq<Row>, r: nat, f: nat)
    requires SaneNames(m, fs) && forall i :: 0 <= i < |rows| ==> HasFields(rows[i], fs)
    requires r < |rows| && f < |fs|
    ensures BeforeHole(m, fs, r, f) + "?" <= InsertText(m, fs, |rows|)
    ensures var n := Marks(BeforeHole(m, fs, r, f));
      && n == r * |fs| + f && n < |RowsArgs(rows, fs, |rows|)|
      && RowsArgs(rows, fs, |rows|)[n] == rows[r][fs[f].goName]
  {
    hide Marks, HeadText, RowsText, HolesText, Comma, RowsArgs;
    ArgumentAt(rows, fs, |rows|, r, f);
    HeadIs(m, fs, |rows|);
    RowStart(|fs|, r, f);
    RowsPrefix(|fs|, r + 1, |rows|);
    var h, a, b, c, d := HeadText(m, fs), RowsText(|fs|, r), Comma(r), HolesText(f), Comma(f);
    assert BeforeHole(m, fs, r, f) + "?" == h + (a + b + "(" + c + d + "?");
    FixedMarks();
    HeadMarks(m, fs);
    RowsMarks(|fs|, r);
    CommaMarks(r);
    HolesMarks(f);
    CommaMarks(f);
    MarksOf(h + a + b + "(" + c, d);
    MarksOf(h + a + b + "(", c);
    MarksOf(h + a + b, "(");
    MarksOf(h + a, b);
    MarksOf(h, a);
  }

  // ---------------------------------------------------------------- the text of the statement

  /** The fields that a statement names. Without chosen columns they are the model's; with some, field
      number `k` is the one of column number `k`, and an unknown name is the only reason to fail. */
  lemma FieldsExact(m: Model, columns: seq<string>)
    ensures |columns| == 0 ==> Fields(m, columns) == Some(m.fields)
    ensures |columns| > 0 ==>
      (Fields(m, columns) != None <==> forall k :: 0 <= k < |columns| ==> columns[k] in m.fieldMap)
    ensures |columns| > 0 && Fields(m, columns) != None ==>
      && |Fields(m, columns).value| == |columns|
      && forall k :: 0 <= k < |columns| ==> Fields(m, columns).value[k] == m.fieldMap[columns[k]]
  {
    FieldsOfExact(m, columns, |columns|);
  }

  lemma {:induction false} FieldsOfExact(m: Model, columns: seq<string>, n: nat)
    requires n <= |columns|
    ensures FieldsOf(m, columns, n) != None <==> forall k :: 0 <= k < n ==> columns[k] in m.fieldMap
    ensures FieldsOf(m, columns, n) != None ==>
      && |FieldsOf(m, columns, n).value| == n
      && forall k :: 0 <= k < n ==> FieldsOf(m, columns, n).value[k] == m.fieldMap[columns[k]]
  {
    if n > 0 {
      FieldsOfExact(m, columns, n - 1);
    }
  }

  function QuotedNames(fs: seq<Field>, n: nat): (r: seq<string>)
    requires n <= |fs|
    ensures |r| == n && forall k :: 0 <= k < n ==> r[k] == "`" + fs[k].colName + "`"
  {
    seq(n, k requires 0 <= k < n => "`" + fs[k].colName + "`")
  }

  function Repeat(s: string, n: nat): (r: seq<string>)
    ensures |r| == n && forall k :: 0 <= k < n ==> r[k] == s
  {
    seq(n, k => s)
  }

  lemma {:induction false} ColumnsAreList(fs: seq<Field>, n: nat)
    requires n <= |fs|
    ensures ColumnsText(fs, n) == Strings.Join(QuotedNames(fs, n), ',')
  {
    hide Strings.Join;
    if n == 0 {
      EmptyList(QuotedNames(fs, 0));
    } else {
      ColumnsAreList(fs, n - 1);
      assert QuotedNames(fs, n) == QuotedNames(fs, n - 1) + [Quoted(fs[n - 1].colName)];
      Strings.JoinMore(QuotedNames(fs, n - 1), Quoted(fs[n - 1].colName), ',');
      assert ColumnsText(fs, 0) == "";
    }
  }

  lemma EmptyList(segs: seq<string>)
    requires |segs| == 0
    ensures Strings.Join(segs, ',') == ""
  {
  }

  lemma {:induction false} HolesAreList(n: nat)
    ensures HolesText(n) == Strings.Join(Repeat("?", n), ',')
  {
    hide Strings.Join;
    if n == 0 {
      EmptyList(Repeat("?", 0));
    } else {
      HolesAreList(n - 1);
      assert Repeat("?", n) == Repeat("?", n - 1) + ["?"];
      Strings.JoinMore(Repeat("?", n - 1), "?", ',');
      assert HolesText(0) == "";
    }
  }

  lemma {:induction false} RowsAreList(fields: nat, n: nat)
    ensures RowsText(fields, n) == Strings.Join(Repeat("(" + HolesText(fields) + ")", n), ',')
  {
    hide Strings.Join, HolesText;
    var row := "(" + HolesText(fields) + ")";
    if n == 0 {
      EmptyList(Repeat(row, 0));
    } else {
      RowsAreList(fields, n - 1);
      assert Repeat(row, n) == Repeat(row, n - 1) + [row];
      Strings.JoinMore(Repeat(row, n - 1), row, ',');
      assert RowsText(fields, 0) == "";
      var a, b := RowsText(fields, n - 1), Comma(n - 1);
      assert a + b + "(" + HolesText(fields) + ")" == a + b + row;
    }
  }

  /** The text of a statement: the table, the quoted names of the fields in their order, and for each
      row a list of as many placeholders, all lists with commas. */
  lemma InsertShape(m: Model, fs: seq<Field>, rows: nat)
    ensures InsertText(m, fs, rows) ==
      "INSERT INTO `" + m.tableName + "`(" + Strings.Join(QuotedNames(fs, |fs|), ',') + ") VALUES"
      + Strings.Join(Repeat("(" + Strings.Join(Repeat("?", |fs|), ',') + ")", rows), ',') + ";"
  {
    hide Strings.Join, ColumnsText, HolesText, RowsText;
    ColumnsAreList(fs, |fs|);
    HolesAreList(|fs|);
    RowsAreList(|fs|, rows);
    assert "INSERT INTO " + Quoted(m.tableName) + "(" == "INSERT INTO `" + m.tableName + "`(";
  }

  /** So, for names without commas, the list of columns splits into the quoted names: the name at
      place `k` is that of field `k`, whose values are the arguments r * F + k. */
  lemma ColumnsSplit(fs: seq<Field>)
    requires |fs| > 0 && forall k :: 0 <= k < |fs| ==> ',' !in fs[k].colName
    ensures var names := Strings.Split(ColumnsText(fs, |fs|), ',');
      |names| == |fs| && forall k :: 0 <= k < |fs| ==> names[k] == "`" + fs[k].colName + "`"
  {
    hide Strings.Join, Strings.Split, ColumnsText;
    ColumnsAreList(fs, |fs|);
    Strings.SplitUndoesJoin(QuotedNames(fs, |fs|), ',');
  }

  /** Where a call breaks off, it has written the beginning of the statement that it would have
      finished. */
  lemma BrokenIsBeginning(rows: seq<Row>, fs: seq<Field>)
    requires FirstIncomplete(rows, fs, 0) < |rows|
    ensures BrokenText(rows, fs, FirstIncomplete(rows, fs, 0)) <= RowsText(|fs|, |rows|)
  {
    hide RowsText, BrokenText, FirstIncomplete, FirstMissing;
    var r := FirstIncomplete(rows, fs, 0);
    RowsPrefix(|fs|, r + 1, |rows|);
    BrokenRow(rows, fs, r);
    Longer(BrokenText(rows, fs, r), RowsText(|fs|, r + 1), RowsText(|fs|, |rows|));
  }

  lemma Longer(a: string, b: string, c: string)
    requires a <= b && b <= c
    ensures a <= c
  {
    assert a == c[..|a|];
  }

  lemma BrokenRow(rows: seq<Row>, fs: seq<Field>, r: nat)
    requires r < |rows| && !HasFields(rows[r], fs)
    ensures BrokenText(rows, fs, r) <= RowsText(|fs|, r + 1)
  {
    hide RowsText, HolesText, Comma, FirstMissing;
    var f := FirstMissing(rows[r], fs, 0);
    assert f < |fs|;
    RowStart(|fs|, r, f);
    NextHole(f);
    SameBreak(RowsText(|fs|, r) + Comma(r) + "(", HolesText(f), Comma(f));
  }

  lemma SameBreak(a: string, h: string, c: string)
    ensures a + (h + c + "?") == a + h + c + "?"
  {
  }

  lemma NextHole(f: nat)
    ensures HolesText(f + 1) == HolesText(f) + Comma(f) + "?"
  {
  }

  lemma TwoColumns(fs: seq<Field>)
    requires fs == [Field("Id", "id"), Field("Name", "name")]
    ensures ColumnsText(fs, 2) == "`id`,`name`"
  {
    assert ColumnsText(fs, 1) == "`id`";
  }

  lemma TwoHoles()
    ensures RowsText(2, 1) == "(?,?)"
  {
    assert HolesText(1) == "?";
    assert HolesText(2) == "?,?";
    assert RowsText(2, 0) == "";
  }

  lemma TwoArgs(x: Arg, y: Arg, fs: seq<Field>, row: Row)
    requires fs == [Field("Id", "id"), Field("Name", "name")] && row == map["Id" := x, "Name" := y]
    ensures HasFields(row, fs) && RowsArgs([row], fs, 1) == [x, y]
  {
    assert row["Id"] == x && row["Name"] == y && HasFields(row, fs);
    assert RowArgs(row, fs, 2) == [x, y];
    assert RowsArgs([row], fs, 0) == [];
  }

  /** One row of a model with two fields. */
  lemma TwoFields(x: Arg, y: Arg)
    ensures var fs, row := [Field("Id", "id"), Field("Name", "name")], map["Id" := x, "Name" := y];
      && InsertText(Model("t", fs, map[]), fs, 1) == "INSERT INTO `t`(`id`,`name`) VALUES(?,?);"
      && HasFields(row, fs) && RowsArgs([row], fs, 1) == [x, y]
  {
    hide ColumnsText, RowsText, RowsArgs, HasFields, Quoted;
    var fs, row := [Field("Id", "id"), Field("Name", "name")], map["Id" := x, "Name" := y];
    TwoColumns(fs);
    TwoHoles();
    TwoArgs(x, y, fs, row);
    TwoFieldsText();
  }

  lemma TwoFieldsText()
    ensures "INSERT INTO " + Quoted("t") + "(" + "`id`,`name`" + ") VALUES" + "(?,?)" + ";"
         == "INSERT INTO `t`(`id`,`name`) VALUES(?,?);"
  {
    assert Quoted("t") == "`t`";
    assert "INSERT INTO " + "`t`" + "(" == "INSERT INTO `t`(";
    assert "INSERT INTO `t`(" + "`id`,`name`" == "INSERT INTO `t`(`id`,`name`";
    assert "INSERT INTO `t`(`id`,`name`" + ") VALUES" == "INSERT INTO `t`(`id`,`name`) VALUES";
    assert "INSERT INTO `t`(`id`,`name`) VALUES" + "(?,?)" + ";" == "INSERT INTO `t`(`id`,`name`) VALUES(?,?);";
  }
}
