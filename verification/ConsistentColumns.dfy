// The check that the columns of one name that must be consistent, over every table, give each
// source value a single destination value.
module ConsistentColumns {

  type Row = seq<string>
  type Rows = map<string, seq<Row>>

  const NULL_TEXT := "\\N"
  const CONSISTENT := "consistent"

  datatype Table = Table(name: string, columns: seq<string>)

  // The rules of the columns of a table, and its rows on both sides, grouped by key.
  datatype TableRows = TableRows(rules: map<string, seq<string>>, source: Rows, dest: Rows)

  // A row has a value for each column.
  ghost predicate Fit(t: Table, rows: Rows) {
    forall key, j :: key in rows && 0 <= j < |rows[key]| ==> |rows[key][j]| == |t.columns|
  }

  ghost predicate AllFit(tables: seq<Table>, data: map<string, TableRows>) {
    forall n :: 0 <= n < |tables| && tables[n].name in data ==>
      Fit(tables[n], data[tables[n].name].source) && Fit(tables[n], data[tables[n].name].dest)
  }

  predicate Holds(rows: TableRows, column: string) {
    column in rows.rules && CONSISTENT in rows.rules[column]
  }

  // ---- What the rule is about ----

  // A matched destination row holds `dest` in the column, where its source row holds `source`.
  datatype Match = Match(column: string, source: string, dest: string)

  // The j-th destination row of a key in the i-th column of the n-th table, and what it says.
  datatype Visit = Visit(n: nat, i: nat, key: string, j: nat, table: string, m: Match)

  // The source value of a key in a column is there, and is not NULL.
  predicate Sourced(t: Table, rows: TableRows, i: nat, key: string)
    requires i < |t.columns| && Fit(t, rows.source)
  {
    key in rows.source && rows.source[key] != [] && rows.source[key][0][i] != NULL_TEXT
  }

  function VisitOf(n: nat, t: Table, rows: TableRows, i: nat, key: string, j: nat): Visit
    requires i < |t.columns| && Fit(t, rows.source) && Fit(t, rows.dest) && Sourced(t, rows, i, key)
    requires key in rows.dest && j < |rows.dest[key]|
  {
    Visit(n, i, key, j, t.name, Match(t.columns[i], rows.source[key][0][i], rows.dest[key][j][i]))
  }

  ghost function OfKey(n: nat, t: Table, rows: TableRows, i: nat, key: string): set<Visit>
    requires i < |t.columns| && Fit(t, rows.source) && Fit(t, rows.dest) && key in rows.dest
  {
    if !Sourced(t, rows, i, key) then {}
    else set j: nat | j < |rows.dest[key]| :: VisitOf(n, t, rows, i, key, j)
  }

  ghost function OfKeys(n: nat, t: Table, rows: TableRows, i: nat, keys: set<string>): set<Visit>
    requires i < |t.columns| && Fit(t, rows.source) && Fit(t, rows.dest) && keys <= rows.dest.Keys
  {
    set key, v | key in keys && v in OfKey(n, t, rows, i, key) :: v
  }

  ghost function OfColumn(n: nat, t: Table, rows: TableRows, i: nat): set<Visit>
    requires i < |t.columns| && Fit(t, rows.source) && Fit(t, rows.dest)
  {
    if Holds(rows, t.columns[i]) then OfKeys(n, t, rows, i, rows.dest.Keys) else {}
  }

  ghost function OfColumns(n: nat, t: Table, rows: TableRows, upTo: nat): set<Visit>
    requires upTo <= |t.columns| && Fit(t, rows.source) && Fit(t, rows.dest)
  {
    set i: nat, v | i < upTo && v in OfColumn(n, t, rows, i) :: v
  }

  ghost function OfTable(tables: seq<Table>, data: map<string, TableRows>, n: nat): set<Visit>
    requires n < |tables| && AllFit(tables, data)
  {
    if tables[n].name in data then OfColumns(n, tables[n], data[tables[n].name], |tables[n].columns|) else {}
  }

  // The matched rows of the first tables, in the columns that hold the rule.
  ghost function OfTables(tables: seq<Table>, data: map<string, TableRows>, upTo: nat): set<Visit>
    requires upTo <= |tables| && AllFit(tables, data)
  {
    set k: nat, v | k < upTo && v in OfTable(tables, data, k) :: v
  }

  // One function per column name gives the destination value of each source value.
  ghost predicate OneFunction(visits: set<Visit>) {
    exists f: map<(string, string), string> :: Explains(f, visits)
  }

  ghost predicate Explains(f: map<(string, string), string>, visits: set<Visit>) {
    forall v :: v in visits ==> (v.m.column, v.m.source) in f && f[(v.m.column, v.m.source)] == v.m.dest
  }

  // ---- What the check remembers ----

  // Per column, the first output of each source value; and how many values break the rule, by
  // table and column.
  datatype Checked = Checked(outputs: map<string, map<string, string>>, violations: map<(string, string), nat>)

  predicate Known(c: Checked, column: string, source: string) {
    column in c.outputs && source in c.outputs[column]
  }

  ghost predicate Agrees(c: Checked, m: Match) {
    Known(c, m.column, m.source) && c.outputs[m.column][m.source] == m.dest
  }

  // The matched rows of a table and a column that differ from the first output of their source value.
  ghost function Differing(c: Checked, visits: set<Visit>, table: string, column: string): set<Visit> {
    set v | v in visits && v.table == table && v.m.column == column && !Agrees(c, v.m)
  }

  function CountAt(violations: map<(string, string), nat>, table: string, column: string): nat {
    if (table, column) in violations then violations[(table, column)] else 0
  }

  // The first outputs are those of rows that were seen, and what is counted under a table and a column is
  // the number of their rows that differ from them.
  ghost predicate Remembers(c: Checked, visits: set<Visit>) {
    && KnowsThem(c, visits)
    && (forall table, column :: CountAt(c.violations, table, column) == |Differing(c, visits, table, column)|)
    && (forall k :: k in c.violations ==> c.violations[k] > 0)
  }

  ghost predicate KnowsThem(c: Checked, visits: set<Visit>) {
    && (forall v :: v in visits ==> Known(c, v.m.column, v.m.source))
    && (forall column, source :: Known(c, column, source) ==>
          IsSeen(visits, Match(column, source, c.outputs[column][source])))
  }

  ghost predicate IsSeen(visits: set<Visit>, m: Match) {
    exists v :: v in visits && v.m == m
  }

  lemma NothingCountedAgrees(c: Checked, visits: set<Visit>)
    requires Remembers(c, visits)
    ensures c.violations == map[] <==> forall v :: v in visits ==> Agrees(c, v.m)
  {
    if c.violations == map[] {
      forall v | v in visits ensures Agrees(c, v.m) {
        assert CountAt(c.violations, v.table, v.m.column) == 0;
        assert v !in Differing(c, visits, v.table, v.m.column);
      }
    } else {
      var k :| k in c.violations;
      assert CountAt(c.violations, k.0, k.1) > 0;
      assert Differing(c, visits, k.0, k.1) != {};
    }
  }

  // Nothing is counted exactly when one function explains all that was seen.
  lemma NothingCountedIsOneFunction(c: Checked, visits: set<Visit>)
    requires Remembers(c, visits)
    ensures c.violations == map[] <==> OneFunction(visits)
  {
    NothingCountedAgrees(c, visits);
    hide Differing, CountAt;
    if c.violations == map[] {
      var f := map v | v in visits :: (v.m.column, v.m.source) := c.outputs[v.m.column][v.m.source];
      assert Explains(f, visits);
    } else {
      var v :| v in visits && !Agrees(c, v.m);
      assert IsSeen(visits, Match(v.m.column, v.m.source, c.outputs[v.m.column][v.m.source]));
    }
  }

  // ---- The check ----

  function WithColumn(outputs: map<string, map<string, string>>, column: string): map<string, map<string, string>> {
    if column in outputs then outputs else outputs[column := map[]]
  }

  lemma SameKnown(c: Checked, d: Checked, visits: set<Visit>)
    requires Remembers(c, visits) && d.violations == c.violations
    requires forall k, s :: Known(d, k, s) <==> Known(c, k, s)
    requires forall k, s :: Known(c, k, s) ==> Known(d, k, s) && d.outputs[k][s] == c.outputs[k][s]
    ensures Remembers(d, visits)
  {
    forall table, column ensures Differing(d, visits, table, column) == Differing(c, visits, table, column) {
      forall v | v in visits ensures Agrees(d, v.m) <==> Agrees(c, v.m) {
      }
    }
  }

  lemma ColumnAdded(c: Checked, visits: set<Visit>, column: string)
    requires Remembers(c, visits)
    ensures Remembers(c.(outputs := WithColumn(c.outputs, column)), visits)
  {
    hide Remembers;
    SameKnown(c, c.(outputs := WithColumn(c.outputs, column)), visits);
  }

  function Counted(violations: map<(string, string), nat>, table: string, column: string): map<(string, string), nat> {
    violations[(table, column) := (if (table, column) in violations then violations[(table, column)] else 0) + 1]
  }

  // What is remembered after one more matched row.
  function Seen(c: Checked, table: string, m: Match): Checked
    requires m.column in c.outputs
  {
    if m.source !in c.outputs[m.column] then
      c.(outputs := c.outputs[m.column := c.outputs[m.column][m.source := m.dest]])
    else if m.dest != c.outputs[m.column][m.source] then
      c.(violations := Counted(c.violations, table, m.column))
    else c
  }

  // What is remembered after a first value.
  lemma FirstIsKnown(c: Checked, table: string, m: Match)
    requires m.column in c.outputs && m.source !in c.outputs[m.column]
    ensures var d := Seen(c, table, m);
      && d.violations == c.violations && Agrees(d, m) && !Known(c, m.column, m.source)
      && (forall k, s :: Known(d, k, s) <==> Known(c, k, s) || (k == m.column && s == m.source))
      && (forall k, s :: Known(c, k, s) ==> Known(d, k, s) && d.outputs[k][s] == c.outputs[k][s])
  {
  }

  // A value that was seen before is left as it was first; one that differs from it is counted.
  lemma AgainIsCounted(c: Checked, table: string, m: Match)
    requires Known(c, m.column, m.source)
    ensures var d := Seen(c, table, m);
      && d.outputs == c.outputs
      && (forall other, column :: CountAt(d.violations, other, column) ==
            CountAt(c.violations, other, column)
            + if other == table && column == m.column && !Agrees(c, m) then 1 else 0)
      && ((forall k :: k in c.violations ==> c.violations[k] > 0) ==>
            forall k :: k in d.violations ==> d.violations[k] > 0)
  {
  }

  lemma SeenFirst(c: Checked, visits: set<Visit>, v: Visit)
    requires Remembers(c, visits) && v.m.column in c.outputs && v.m.source !in c.outputs[v.m.column]
    ensures Remembers(Seen(c, v.table, v.m), visits + {v})
  {
    hide Known, Seen, CountAt;
    var d, more := Seen(c, v.table, v.m), visits + {v};
    FirstIsKnown(c, v.table, v.m);
    forall table, column ensures Differing(d, more, table, column) == Differing(c, visits, table, column) {
      forall w | w in visits ensures Agrees(d, w.m) <==> Agrees(c, w.m) {
        assert Known(c, w.m.column, w.m.source);
      }
    }
    FirstIsThere(c, d, visits, v);
  }

  lemma FirstIsThere(c: Checked, d: Checked, visits: set<Visit>, v: Visit)
    requires KnowsThem(c, visits) && Agrees(d, v.m)
    requires forall k, s :: Known(d, k, s) <==> Known(c, k, s) || (k == v.m.column && s == v.m.source)
    requires forall k, s :: Known(c, k, s) ==> Known(d, k, s) && d.outputs[k][s] == c.outputs[k][s]
    ensures KnowsThem(d, visits + {v})
  {
    var more := visits + {v};
    forall column, source | Known(d, column, source)
      ensures IsSeen(more, Match(column, source, d.outputs[column][source]))
    {
      if column == v.m.column && source == v.m.source {
        assert v in more && v.m == Match(column, source, d.outputs[column][source]);
      } else {
        assert IsSeen(visits, Match(column, source, c.outputs[column][source]));
      }
    }
  }

  lemma DifferingOneMore(c: Checked, d: Checked, visits: set<Visit>, v: Visit, table: string, column: string)
    requires v !in visits && d.outputs == c.outputs
    ensures |Differing(d, visits + {v}, table, column)| ==
            |Differing(c, visits, table, column)|
            + if table == v.table && column == v.m.column && !Agrees(c, v.m) then 1 else 0
  {
    assert forall m :: Agrees(d, m) <==> Agrees(c, m);
    hide Agrees;
    if table == v.table && column == v.m.column && !Agrees(c, v.m) {
      assert Differing(d, visits + {v}, table, column) == Differing(c, visits, table, column) + {v};
    } else {
      assert Differing(d, visits + {v}, table, column) == Differing(c, visits, table, column);
    }
  }

  lemma SeenAgain(c: Checked, visits: set<Visit>, v: Visit)
    requires Remembers(c, visits) && v !in visits && Known(c, v.m.column, v.m.source)
    ensures Remembers(Seen(c, v.table, v.m), visits + {v})
  {
    var d := Seen(c, v.table, v.m);
    AgainIsCounted(c, v.table, v.m);
    assert KnowsThem(d, visits + {v}) by {
      StillKnown(c, d, visits, v);
    }
    hide Seen, CountAt, KnowsThem, Differing, Agrees;
    forall table, column
      ensures CountAt(d.violations, table, column) == |Differing(d, visits + {v}, table, column)|
    {
      DifferingOneMore(c, d, visits, v, table, column);
    }
  }

  lemma StillKnown(c: Checked, d: Checked, visits: set<Visit>, v: Visit)
    requires KnowsThem(c, visits) && d.outputs == c.outputs && Known(c, v.m.column, v.m.source)
    ensures KnowsThem(d, visits + {v})
  {
    forall column, source | Known(d, column, source)
      ensures IsSeen(visits + {v}, Match(column, source, d.outputs[column][source]))
    {
      assert Known(c, column, source);
      assert IsSeen(visits, Match(column, source, c.outputs[column][source]));
    }
  }

  // One more matched row: what is remembered and what is counted are those of it too.
  lemma SeenIsRemembered(c: Checked, visits: set<Visit>, v: Visit)
    requires Remembers(c, visits) && v !in visits && v.m.column in c.outputs
    ensures Remembers(Seen(c, v.table, v.m), visits + {v})
  {
    hide Remembers, Seen;
    if v.m.source in c.outputs[v.m.column] {
      SeenAgain(c, visits, v);
    } else {
      SeenFirst(c, visits, v);
    }
  }

  lemma SeenKeepsTheColumn(c: Checked, table: string, m: Match, column: string)
    requires m.column in c.outputs && column in c.outputs
    ensures column in Seen(c, table, m).outputs
  {
  }

  method CheckKey(
    ghost n: nat, t: Table, rows: TableRows, i: nat, key: string, before: Checked, ghost visits: set<Visit>)
    returns (c: Checked)
    requires i < |t.columns| && Fit(t, rows.source) && Fit(t, rows.dest) && key in rows.dest
    requires Remembers(before, visits) && t.columns[i] in before.outputs && visits !! OfKey(n, t, rows, i, key)
    ensures Remembers(c, visits + OfKey(n, t, rows, i, key)) && t.columns[i] in c.outputs
  {
    hide Remembers, Seen;
    c := before;
    if !Sourced(t, rows, i, key) {
      assert visits + OfKey(n, t, rows, i, key) == visits;
      return;
    }
    var sourceValue := rows.source[key][0][i];
    ghost var done: set<Visit> := {};
    assert visits + done == visits;
    for j := 0 to |rows.dest[key]|
      invariant done == set l: nat | l < j :: VisitOf(n, t, rows, i, key, l)
      invariant Remembers(c, visits + done) && t.columns[i] in c.outputs
    {
      var m := Match(t.columns[i], sourceValue, rows.dest[key][j][i]);
      ghost var v := VisitOf(n, t, rows, i, key, j);
      assert v in OfKey(n, t, rows, i, key) && v !in done;
      SeenIsRemembered(c, visits + done, v);
      SeenKeepsTheColumn(c, t.name, m, t.columns[i]);
      assert visits + done + {v} == visits + (done + {v});
      c := Seen(c, t.name, m);
      done := done + {v};
    }
  }

  lemma OneMoreKey(n: nat, t: Table, rows: TableRows, i: nat, keys: set<string>, key: string)
    requires i < |t.columns| && Fit(t, rows.source) && Fit(t, rows.dest)
    requires keys <= rows.dest.Keys && key in rows.dest && key !in keys
    ensures OfKeys(n, t, rows, i, keys + {key}) == OfKeys(n, t, rows, i, keys) + OfKey(n, t, rows, i, key)
    ensures OfKeys(n, t, rows, i, keys) !! OfKey(n, t, rows, i, key)
  {
    KeysOfVisits(n, t, rows, i);
    hide OfKey, Fit;
  }

  lemma KeysOfVisits(n: nat, t: Table, rows: TableRows, i: nat)
    requires i < |t.columns| && Fit(t, rows.source) && Fit(t, rows.dest)
    ensures forall key, v :: key in rows.dest && v in OfKey(n, t, rows, i, key) ==> v.key == key && v.n == n && v.i == i
  {
  }

  lemma InTheColumn(n: nat, t: Table, rows: TableRows, i: nat, key: string)
    requires i < |t.columns| && Fit(t, rows.source) && Fit(t, rows.dest) && key in rows.dest
    ensures OfKey(n, t, rows, i, key) <= OfKeys(n, t, rows, i, rows.dest.Keys)
  {
    hide OfKey, Fit;
  }

  method CheckColumn(ghost n: nat, t: Table, rows: TableRows, i: nat, before: Checked, ghost visits: set<Visit>)
    returns (c: Checked)
    requires i < |t.columns| && Fit(t, rows.source) && Fit(t, rows.dest)
    requires Remembers(before, visits) && visits !! OfColumn(n, t, rows, i)
    ensures Remembers(c, visits + OfColumn(n, t, rows, i))
  {
    hide Remembers, OfKey, OfKeys, Fit, WithColumn;
    if !Holds(rows, t.columns[i]) {
      assert visits + OfColumn(n, t, rows, i) == visits;
      return before;
    }
    ColumnAdded(before, visits, t.columns[i]);
    WithColumnHasIt(before.outputs, t.columns[i]);
    c := before.(outputs := WithColumn(before.outputs, t.columns[i]));
    var todo := rows.dest.Keys;
    ghost var done: set<string> := {};
    NoKeys(n, t, rows, i, visits);
    while todo != {}
      invariant todo !! done && todo + done == rows.dest.Keys
      invariant Remembers(c, visits + OfKeys(n, t, rows, i, done)) && t.columns[i] in c.outputs
    {
      var key :| key in todo;
      OneMoreKey(n, t, rows, i, done, key);
      InTheColumn(n, t, rows, i, key);
      c := CheckKey(n, t, rows, i, key, c, visits + OfKeys(n, t, rows, i, done));
      assert visits + OfKeys(n, t, rows, i, done) + OfKey(n, t, rows, i, key)
          == visits + OfKeys(n, t, rows, i, done + {key});
      todo := todo - {key};
      done := done + {key};
    }
    assert done == rows.dest.Keys;
  }

  lemma WithColumnHasIt(outputs: map<string, map<string, string>>, column: string)
    ensures column in WithColumn(outputs, column)
  {
  }

  lemma NoKeys(n: nat, t: Table, rows: TableRows, i: nat, visits: set<Visit>)
    requires i < |t.columns| && Fit(t, rows.source) && Fit(t, rows.dest)
    ensures visits + OfKeys(n, t, rows, i, {}) == visits
  {
  }

  lemma ColumnsOfVisits(n: nat, t: Table, rows: TableRows)
    requires Fit(t, rows.source) && Fit(t, rows.dest)
    ensures forall i: nat, v :: i < |t.columns| && v in OfColumn(n, t, rows, i) ==> v.i == i && v.n == n
  {
    forall i: nat, v | i < |t.columns| && v in OfColumn(n, t, rows, i) ensures v.i == i && v.n == n {
      KeysOfVisits(n, t, rows, i);
    }
  }

  lemma OneMoreColumn(n: nat, t: Table, rows: TableRows, i: nat, visits: set<Visit>)
    requires i < |t.columns| && Fit(t, rows.source) && Fit(t, rows.dest)
    ensures visits + OfColumns(n, t, rows, i) + OfColumn(n, t, rows, i) == visits + OfColumns(n, t, rows, i + 1)
    ensures OfColumns(n, t, rows, i) !! OfColumn(n, t, rows, i)
    ensures OfColumn(n, t, rows, i) <= OfColumns(n, t, rows, |t.columns|)
  {
    ColumnsOfVisits(n, t, rows);
    hide OfColumn, Fit;
    forall v | v in OfColumns(n, t, rows, i + 1) ensures v in OfColumns(n, t, rows, i) + OfColumn(n, t, rows, i) {
      var k: nat :| k < i + 1 && v in OfColumn(n, t, rows, k);
    }
  }

  method CheckTable(ghost n: nat, t: Table, rows: TableRows, before: Checked, ghost visits: set<Visit>)
    returns (c: Checked)
    requires Fit(t, rows.source) && Fit(t, rows.dest) && Remembers(before, visits)
    requires visits !! OfColumns(n, t, rows, |t.columns|)
    ensures Remembers(c, visits + OfColumns(n, t, rows, |t.columns|))
  {
    hide Remembers, Fit, OfColumns, OfColumn;
    c := before;
    NoColumns(n, t, rows, visits);
    for i := 0 to |t.columns|
      invariant Remembers(c, visits + OfColumns(n, t, rows, i))
    {
      OneMoreColumn(n, t, rows, i, visits);
      c := CheckColumn(n, t, rows, i, c, visits + OfColumns(n, t, rows, i));
    }
  }

  lemma NoColumns(n: nat, t: Table, rows: TableRows, visits: set<Visit>)
    requires Fit(t, rows.source) && Fit(t, rows.dest)
    ensures visits + OfColumns(n, t, rows, 0) == visits
  {
  }

  lemma TablesOfVisits(tables: seq<Table>, data: map<string, TableRows>)
    requires AllFit(tables, data)
    ensures forall n: nat, v :: n < |tables| && v in OfTable(tables, data, n) ==> v.n == n
  {
    forall n: nat, v | n < |tables| && v in OfTable(tables, data, n) ensures v.n == n {
      ColumnsOfVisits(n, tables[n], data[tables[n].name]);
    }
  }

  lemma OneMoreTable(tables: seq<Table>, data: map<string, TableRows>, n: nat)
    requires n < |tables| && AllFit(tables, data)
    ensures OfTables(tables, data, n) + OfTable(tables, data, n) == OfTables(tables, data, n + 1)
    ensures OfTables(tables, data, n) !! OfTable(tables, data, n)
  {
    TablesOfVisits(tables, data);
    hide OfTable, AllFit;
    forall v | v in OfTables(tables, data, n + 1) ensures v in OfTables(tables, data, n) + OfTable(tables, data, n) {
      var k: nat :| k < n + 1 && v in OfTable(tables, data, k);
    }
  }

  lemma NothingSeen(tables: seq<Table>, data: map<string, TableRows>)
    requires AllFit(tables, data)
    ensures Remembers(Checked(map[], map[]), OfTables(tables, data, 0))
  {
    var c := Checked(map[], map[]);
    forall table, column ensures Differing(c, OfTables(tables, data, 0), table, column) == {} {
    }
  }

  // The values that break the rule, by table and column: as many as there are matched rows there that
  // differ from the first output of their source value. None exactly when, for each column name that holds
  // the rule, one function from the source values that are not NULL to the destination values explains
  // all the matched rows of all the tables.
  method CheckConsistent(tables: seq<Table>, data: map<string, TableRows>)
    returns (violations: map<(string, string), nat>)
    requires AllFit(tables, data)
    ensures violations == map[] <==> OneFunction(OfTables(tables, data, |tables|))
    ensures CountsWhatDiffers(violations, OfTables(tables, data, |tables|))
  {
    hide Remembers, Fit, OfColumns, OfTables, OneFunction, CountsWhatDiffers;
    var c := Checked(map[], map[]);
    NothingSeen(tables, data);
    for n := 0 to |tables|
      invariant Remembers(c, OfTables(tables, data, n))
    {
      OneMoreTable(tables, data, n);
      if tables[n].name in data {
        c := CheckTable(n, tables[n], data[tables[n].name], c, OfTables(tables, data, n));
      } else {
        assert OfTables(tables, data, n) + {} == OfTables(tables, data, n);
      }
    }
    NothingCountedIsOneFunction(c, OfTables(tables, data, |tables|));
    CountedIsWhatDiffers(c, OfTables(tables, data, |tables|));
    violations := c.violations;
  }

  // With one output of each source value, that of some row, what is counted is the rows that differ from it.
  ghost predicate CountsWhatDiffers(violations: map<(string, string), nat>, visits: set<Visit>) {
    exists first: map<string, map<string, string>> ::
      KnowsThem(Checked(first, violations), visits)
      && forall table, column ::
           CountAt(violations, table, column) == |Differing(Checked(first, violations), visits, table, column)|
  }

  lemma CountedIsWhatDiffers(c: Checked, visits: set<Visit>)
    requires Remembers(c, visits)
    ensures CountsWhatDiffers(c.violations, visits)
  {
    hide KnowsThem, CountAt, Differing;
    assert c == Checked(c.outputs, c.violations);
  }
}
