/** The parameterised SQL statements the handlers send, built from their
    column lists, and what such a statement writes into one row. Statement
    execution itself belongs to the database and is not modelled. */
module Sql {
  import opened Js

  /** A statement as handed to the driver: text with `?` placeholders and the
      values that fill them, in order. */
  datatype Query = Query(sql: string, params: seq<Value>)

  /** One entry of an INSERT's VALUES list: a `?` bound to the next parameter,
      or a quoted string literal written into the text. */
  datatype Cell = Param | Literal(text: string)

  /** Number of `?` characters in a statement text. */
  function Count(s: string): nat
  {
    if s == [] then 0 else (if s[0] == '?' then 1 else 0) + Count(s[1..])
  }

  lemma {:induction false} CountConcat(a: string, b: string)
    ensures Count(a + b) == Count(a) + Count(b)
  {
    if a != [] {
      assert (a + b)[1..] == a[1..] + b;
      CountConcat(a[1..], b);
    } else {
      assert a + b == b;
    }
  }

  lemma {:induction false} CountAbsent(s: string)
    requires '?' !in s
    ensures Count(s) == 0
  {
    if s != [] {
      assert '?' !in s[1..] by {
        forall i | 0 <= i < |s[1..]| ensures s[1..][i] != '?' { assert s[1..][i] == s[i + 1]; }
      }
      CountAbsent(s[1..]);
    }
  }

  /** Identifiers and literals are free of `?`, so every `?` in a built
      statement is a placeholder. */
  ghost predicate Plain(names: seq<string>)
  {
    forall k :: 0 <= k < |names| ==> '?' !in names[k]
  }

  /** No column is named twice. */
  ghost predicate Distinct(cols: seq<string>)
  {
    forall i, j :: 0 <= i < j < |cols| ==> cols[i] != cols[j]
  }

  /** `a, b, c` */
  function Names(cols: seq<string>): string
  {
    if |cols| == 0 then ""
    else if |cols| == 1 then cols[0]
    else cols[0] + ", " + Names(cols[1..])
  }

  /** `a = ?, b = ?, c = ?` */
  function Assignments(cols: seq<string>): string
  {
    if |cols| == 0 then ""
    else if |cols| == 1 then cols[0] + " = ?"
    else cols[0] + " = ?, " + Assignments(cols[1..])
  }

  /** `?, 'published', ?` */
  function Cells(cells: seq<Cell>): string
  {
    if |cells| == 0 then ""
    else
      var head := match cells[0] case Param => "?" case Literal(t) => "'" + t + "'";
      if |cells| == 1 then head else head + ", " + Cells(cells[1..])
  }

  /** Number of `?` cells in a VALUES list. */
  function Params(cells: seq<Cell>): nat
  {
    if cells == [] then 0 else (if cells[0].Param? then 1 else 0) + Params(cells[1..])
  }

  /** The literals of a VALUES list. */
  function Literals(cells: seq<Cell>): seq<string>
  {
    if cells == [] then []
    else (match cells[0] case Param => [] case Literal(t) => [t]) + Literals(cells[1..])
  }

  /** `INSERT INTO t (cols) VALUES (cells)` */
  function InsertSql(table: string, cols: seq<string>, cells: seq<Cell>): string
  {
    IntoList(table, cols) + ValuesList(cells)
  }

  /** `INSERT INTO t (cols)` */
  function IntoList(table: string, cols: seq<string>): string
  {
    "INSERT INTO " + table + " (" + Names(cols) + ")"
  }

  /** ` VALUES (cells)` */
  function ValuesList(cells: seq<Cell>): string
  {
    " VALUES (" + Cells(cells) + ")"
  }

  /** `UPDATE t SET c1 = ?, ... WHERE key = ?` */
  function UpdateSql(table: string, cols: seq<string>, key: string): string
  {
    UpdateHead(table) + Assignments(cols) + WhereKey(key)
  }

  /** `UPDATE t SET ` */
  function UpdateHead(table: string): string
  {
    "UPDATE " + table + " SET "
  }

  /** ` WHERE key = ?` */
  function WhereKey(key: string): string
  {
    " WHERE " + key + " = ?"
  }

  lemma {:induction false} NamesCount(cols: seq<string>)
    requires Plain(cols)
    ensures Count(Names(cols)) == 0
  {
    if |cols| == 1 {
      CountAbsent(cols[0]);
    } else if |cols| > 1 {
      assert Plain(cols[1..]) by {
        forall k | 0 <= k < |cols[1..]| ensures '?' !in cols[1..][k] { assert cols[1..][k] == cols[k + 1]; }
      }
      NamesCount(cols[1..]);
      CountAbsent(cols[0]);
      CountAbsent(", ");
      CountConcat(cols[0], ", ");
      CountConcat(cols[0] + ", ", Names(cols[1..]));
    }
  }

  /** The SET list holds exactly one placeholder per column. */
  lemma {:induction false} AssignmentsCount(cols: seq<string>)
    requires Plain(cols)
    ensures Count(Assignments(cols)) == |cols|
  {
    if |cols| >= 1 {
      CountAbsent(cols[0]);
      assert Count(" = ?") == 1 by {
        assert " = ?"[1..] == "= ?";
        assert "= ?"[1..] == " ?";
        assert " ?"[1..] == "?";
        assert "?"[1..] == "";
      }
      CountConcat(cols[0], " = ?");
      if |cols| > 1 {
        assert Plain(cols[1..]) by {
          forall k | 0 <= k < |cols[1..]| ensures '?' !in cols[1..][k] { assert cols[1..][k] == cols[k + 1]; }
        }
        AssignmentsCount(cols[1..]);
        CountAbsent(", ");
        CountConcat(cols[0] + " = ?", ", ");
        CountConcat(cols[0] + " = ?" + ", ", Assignments(cols[1..]));
        assert Assignments(cols) == cols[0] + " = ?" + ", " + Assignments(cols[1..]);
      }
    }
  }

  /** The VALUES list holds exactly one placeholder per `Param` cell. */
  lemma {:induction false} CellsCount(cells: seq<Cell>)
    requires Plain(Literals(cells))
    ensures Count(Cells(cells)) == Params(cells)
  {
    if |cells| >= 1 {
      var head := match cells[0] case Param => "?" case Literal(t) => "'" + t + "'";
      var rest := Literals(cells[1..]);
      assert Literals(cells) == (match cells[0] case Param => [] case Literal(t) => [t]) + rest;
      match cells[0] {
        case Param =>
          assert Count(head) == 1 by { assert head[1..] == ""; }
        case Literal(t) =>
          assert Literals(cells)[0] == t;
          CountAbsent(t);
          CountAbsent("'");
          CountConcat("'", t);
          CountConcat("'" + t, "'");
      }
      if |cells| > 1 {
        assert Plain(rest) by {
          var lits := Literals(cells);
          var off := |lits| - |rest|;
          forall k | 0 <= k < |rest| ensures '?' !in rest[k] { assert rest[k] == lits[k + off]; }
        }
        CellsCount(cells[1..]);
        CountAbsent(", ");
        CountConcat(head, ", ");
        CountConcat(head + ", ", Cells(cells[1..]));
      }
    }
  }

  lemma IntoListCount(table: string, cols: seq<string>)
    requires '?' !in table && Plain(cols)
    ensures Count(IntoList(table, cols)) == 0
  {
    NamesCount(cols);
    CountAbsent("INSERT INTO ");
    CountAbsent(table);
    CountAbsent(" (");
    CountAbsent(")");
    var a := "INSERT INTO " + table;
    CountConcat("INSERT INTO ", table);
    CountConcat(a, " (");
    CountConcat(a + " (", Names(cols));
    CountConcat(a + " (" + Names(cols), ")");
  }

  lemma ValuesListCount(cells: seq<Cell>)
    requires Plain(Literals(cells))
    ensures Count(ValuesList(cells)) == Params(cells)
  {
    CellsCount(cells);
    CountAbsent(" VALUES (");
    CountAbsent(")");
    CountConcat(" VALUES (", Cells(cells));
    CountConcat(" VALUES (" + Cells(cells), ")");
  }

  /** An INSERT built from plain names has as many placeholders as `Param` cells. */
  lemma InsertCount(table: string, cols: seq<string>, cells: seq<Cell>)
    requires '?' !in table && Plain(cols) && Plain(Literals(cells))
    ensures Count(InsertSql(table, cols, cells)) == Params(cells)
  {
    IntoListCount(table, cols);
    ValuesListCount(cells);
    CountConcat(IntoList(table, cols), ValuesList(cells));
  }

  /** An UPDATE has one placeholder per assigned column plus the key's. */
  lemma UpdateCount(table: string, cols: seq<string>, key: string)
    requires '?' !in table && '?' !in key && Plain(cols)
    ensures Count(UpdateSql(table, cols, key)) == |cols| + 1
  {
    AssignmentsCount(cols);
    UpdateHeadCount(table);
    WhereKeyCount(key);
    CountConcat(UpdateHead(table), Assignments(cols));
    CountConcat(UpdateHead(table) + Assignments(cols), WhereKey(key));
  }

  lemma UpdateHeadCount(table: string)
    requires '?' !in table
    ensures Count(UpdateHead(table)) == 0
  {
    CountAbsent("UPDATE ");
    CountAbsent(table);
    CountAbsent(" SET ");
    CountConcat("UPDATE ", table);
    CountConcat("UPDATE " + table, " SET ");
  }

  lemma WhereKeyCount(key: string)
    requires '?' !in key
    ensures Count(WhereKey(key)) == 1
  {
    CountAbsent(" WHERE ");
    CountAbsent(key);
    assert Count(" = ?") == 1 by {
      assert " = ?"[1..] == "= ?";
      assert "= ?"[1..] == " ?";
      assert " ?"[1..] == "?";
      assert "?"[1..] == "";
    }
    CountConcat(" WHERE ", key);
    CountConcat(" WHERE " + key, " = ?");
  }

  /** Appending a column to a non-empty SET list appends `, c = ?` to its text. */
  lemma {:induction false} AssignmentsSnoc(cols: seq<string>, c: string)
    requires |cols| >= 1
    ensures Assignments(cols + [c]) == Assignments(cols) + (", " + c + " = ?")
  {
    var all := cols + [c];
    assert all[0] == cols[0];
    assert all[1..] == cols[1..] + [c];
    if |cols| > 1 {
      AssignmentsSnoc(cols[1..], c);
    }
  }

  /** Adding a column to an UPDATE's SET list splices `, c = ?` in before
      its WHERE clause. */
  lemma UpdateSnoc(table: string, cols: seq<string>, c: string, key: string)
    requires |cols| >= 1
    ensures UpdateSql(table, cols + [c], key) ==
      UpdateHead(table) + (Assignments(cols) + (", " + c + " = ?")) + WhereKey(key)
  {
    AssignmentsSnoc(cols, c);
  }

  /** A column list stays free of repeats when a new name is appended. */
  lemma DistinctSnoc(cols: seq<string>, c: string)
    requires Distinct(cols) && c !in cols
    ensures Distinct(cols + [c])
  {
    var all := cols + [c];
    forall i, j | 0 <= i < j < |all| ensures all[i] != all[j] {
      if j < |cols| {
        assert all[i] == cols[i] && all[j] == cols[j];
      } else {
        assert all[i] == cols[i] && all[j] == c;
      }
    }
  }

  /** The number of placeholders before position `k` of a VALUES list that
      begins with `k` placeholders. */
  lemma {:induction false} ParamsPrefix(cells: seq<Cell>, k: nat)
    requires k <= |cells| && forall i :: 0 <= i < k ==> cells[i].Param?
    ensures Params(cells[..k]) == k
  {
    if k > 0 {
      assert cells[..k][1..] == cells[1..][..k - 1];
      ParamsPrefix(cells[1..], k - 1);
    }
  }

  lemma {:induction false} ParamsConcat(a: seq<Cell>, b: seq<Cell>)
    ensures Params(a + b) == Params(a) + Params(b)
  {
    if a != [] {
      assert (a + b)[1..] == a[1..] + b;
      ParamsConcat(a[1..], b);
    } else {
      assert a + b == b;
    }
  }

  /** The values a VALUES list writes: each `Param` takes the next parameter,
      each literal its own text. */
  function Bind(cells: seq<Cell>, params: seq<Value>): (vals: seq<Value>)
    requires Params(cells) == |params|
    ensures |vals| == |cells|
  {
    if cells == [] then []
    else match cells[0]
      case Param => [params[0]] + Bind(cells[1..], params[1..])
      case Literal(t) => [Str(t)] + Bind(cells[1..], params)
  }

  /** A literal cell writes its literal, whatever the parameters are. */
  lemma {:induction false} BindLiteral(cells: seq<Cell>, params: seq<Value>, k: nat)
    requires Params(cells) == |params| && k < |cells| && cells[k].Literal?
    ensures Bind(cells, params)[k] == Str(cells[k].text)
  {
    if k > 0 {
      match cells[0] {
        case Param => BindLiteral(cells[1..], params[1..], k - 1);
        case Literal(_) => BindLiteral(cells[1..], params, k - 1);
      }
    }
  }

  /** A `Param` cell writes the parameter whose index is the number of
      placeholders before it. */
  lemma {:induction false} BindParam(cells: seq<Cell>, params: seq<Value>, k: nat)
    requires Params(cells) == |params| && k < |cells| && cells[k].Param?
    ensures Params(cells[..k]) < |params|
    ensures Bind(cells, params)[k] == params[Params(cells[..k])]
  {
    if k == 0 {
      assert cells[..0] == [];
    } else {
      assert cells[..k][1..] == cells[1..][..k - 1];
      match cells[0] {
        case Param => BindParam(cells[1..], params[1..], k - 1);
        case Literal(_) => BindParam(cells[1..], params, k - 1);
      }
    }
  }

  /** Assigning `vals[k]` to column `cols[k]`, left to right. */
  function Write(row: Object, cols: seq<string>, vals: seq<Value>): Object
    requires |cols| == |vals|
    decreases cols
  {
    if cols == [] then row else Write(row[cols[0] := vals[0]], cols[1..], vals[1..])
  }

  /** A column not assigned keeps its old value. */
  lemma {:induction false} WriteOther(row: Object, cols: seq<string>, vals: seq<Value>, c: string)
    requires |cols| == |vals| && c !in cols
    ensures Get(Write(row, cols, vals), c) == Get(row, c)
    decreases cols
  {
    if cols != [] {
      WriteOther(row[cols[0] := vals[0]], cols[1..], vals[1..], c);
    }
  }

  /** A column assigned once ends up with its value. */
  lemma {:induction false} WriteAt(row: Object, cols: seq<string>, vals: seq<Value>, k: nat)
    requires |cols| == |vals| && Distinct(cols) && k < |cols|
    ensures Get(Write(row, cols, vals), cols[k]) == vals[k]
    decreases cols
  {
    assert Distinct(cols[1..]) by {
      forall i, j | 0 <= i < j < |cols[1..]| ensures cols[1..][i] != cols[1..][j] {
        assert cols[1..][i] == cols[i + 1] && cols[1..][j] == cols[j + 1];
      }
    }
    if k == 0 {
      assert cols[0] !in cols[1..] by {
        forall j | 0 <= j < |cols[1..]| ensures cols[1..][j] != cols[0] { assert cols[1..][j] == cols[j + 1]; }
      }
      WriteOther(row[cols[0] := vals[0]], cols[1..], vals[1..], cols[0]);
    } else {
      WriteAt(row[cols[0] := vals[0]], cols[1..], vals[1..], k - 1);
    }
  }
}
