// The rules of the columns of a table, checked value by value.
module ColumnRules {
  import opened Sums
  import opened TableResults

  // ---- What the rules say ----

  // A key of rows that are kept and have a source to be compared with.
  predicate IsCompared(sides: Sides, key: string) {
    && key in sides.expected && sides.expected[key].verdict == Kept
    && key in sides.source && sides.source[key] != []
  }

  // The value a column that is unchanged holds: the one of the source, or NULL where it is dropped.
  function WantedValue(columns: seq<string>, i: nat, sides: Sides, key: string): string
    requires i < |columns| && IsCompared(sides, key) && |sides.source[key][0]| == |columns|
  {
    if columns[i] in sides.expected[key].nullColumns then NULL_TEXT else sides.source[key][0][i]
  }

  // Some value of the column, in a row of that key.
  ghost predicate IsCell(rows: Rows, i: nat, key: string, value: string) {
    key in rows && exists j :: 0 <= j < |rows[key]| && i < |rows[key][j]| && rows[key][j][i] == value
  }

  ghost predicate UnchangedHolds(columns: seq<string>, i: nat, sides: Sides)
    requires i < |columns| && Fit(columns, sides.source)
  {
    forall key, value :: IsCell(sides.dest, i, key, value) && IsCompared(sides, key) ==>
      value == WantedValue(columns, i, sides, key)
  }

  ghost predicate NullHolds(i: nat, sides: Sides) {
    forall key, value :: IsCell(sides.dest, i, key, value) ==> value == NULL_TEXT
  }

  ghost predicate NotInSourceSetHolds(i: nat, sides: Sides) {
    forall key, other, value :: IsCell(sides.dest, i, key, value) && IsCell(sides.source, i, other, value) ==>
      value == NULL_TEXT
  }

  // All the values of the column, as often as they stand there.
  ghost function ColumnOf(rows: seq<Row>, i: nat): seq<string> {
    seq(|rows|, j requires 0 <= j < |rows| => if i < |rows[j]| then rows[j][i] else NULL_TEXT)
  }

  ghost function Cells(rows: Rows, i: nat, keys: set<string>): multiset<string>
    requires keys <= rows.Keys
  {
    if keys == {} then multiset{}
    else
      var key :| key in keys;
      multiset(ColumnOf(rows[key], i)) + Cells(rows, i, keys - {key})
  }

  // No value but NULL stands there twice.
  ghost predicate NoneTwice(cells: multiset<string>) {
    forall value :: value in cells && value != NULL_TEXT ==> cells[value] == 1
  }

  ghost predicate UniqueHolds(i: nat, sides: Sides) {
    NoneTwice(Cells(sides.dest, i, sides.dest.Keys))
  }

  // The two rules left are checked over several tables, elsewhere.
  ghost predicate Holds(columns: seq<string>, i: nat, rule: Rule, sides: Sides)
    requires i < |columns| && Fit(columns, sides.source) && Fit(columns, sides.dest)
  {
    match rule
    case Unchanged => UnchangedHolds(columns, i, sides)
    case Null => NullHolds(i, sides)
    case Unique => UniqueHolds(i, sides)
    case NotInSourceSet => NotInSourceSetHolds(i, sides)
    case FollowsParent => true
    case Consistent => true
    case Other(_) => true
  }

  // A destination row whose key is kept and has a source row.
  ghost predicate IsMatched(sides: Sides, key: string, j: int) {
    && key in sides.dest && 0 <= j < |sides.dest[key]|
    && key in sides.expected && sides.expected[key].verdict == Kept
    && key in sides.source && sides.source[key] != []
  }

  // A column that is unchanged holds, in each matched row, NULL when it is one of those expected to be, and
  // otherwise the value of the first source row.
  lemma UnchangedTells(columns: seq<string>, i: nat, sides: Sides)
    requires i < |columns| && Fit(columns, sides.source) && Fit(columns, sides.dest)
    ensures Holds(columns, i, Unchanged, sides) <==>
            forall key, j :: IsMatched(sides, key, j) ==>
              sides.dest[key][j][i] ==
              if columns[i] in sides.expected[key].nullColumns then NULL_TEXT else sides.source[key][0][i]
  {
    forall key, j | IsMatched(sides, key, j)
      ensures IsCompared(sides, key) && IsCell(sides.dest, i, key, sides.dest[key][j][i])
    {
    }
  }

  // A column that is NULL holds no other value; one not in the source set shares no value but NULL with the
  // column of the source.
  lemma NullAndCopiedTell(columns: seq<string>, i: nat, sides: Sides)
    requires i < |columns| && Fit(columns, sides.source) && Fit(columns, sides.dest)
    ensures Holds(columns, i, Null, sides) <==>
            forall key, j :: key in sides.dest && 0 <= j < |sides.dest[key]| ==> sides.dest[key][j][i] == NULL_TEXT
    ensures Holds(columns, i, NotInSourceSet, sides) <==>
            forall key, j, other, l ::
              key in sides.dest && 0 <= j < |sides.dest[key]| && other in sides.source
              && 0 <= l < |sides.source[other]| && sides.dest[key][j][i] == sides.source[other][l][i]
              ==> sides.dest[key][j][i] == NULL_TEXT
  {
    forall key, j | key in sides.dest && 0 <= j < |sides.dest[key]|
      ensures IsCell(sides.dest, i, key, sides.dest[key][j][i])
    {
    }
    forall key, j | key in sides.source && 0 <= j < |sides.source[key]|
      ensures IsCell(sides.source, i, key, sides.source[key][j][i])
    {
    }
  }

  // ---- Values that break a rule one by one ----

  ghost function Bad(key: string, rows: seq<Row>, i: nat, bad: (string, string) -> bool): nat
    requires forall j :: 0 <= j < |rows| ==> i < |rows[j]|
  {
    if rows == [] then 0
    else
      var n := |rows| - 1;
      Bad(key, rows[..n], i, bad) + if bad(key, rows[n][i]) then 1 else 0
  }

  lemma {:induction false} NoneIsBad(key: string, rows: seq<Row>, i: nat, bad: (string, string) -> bool)
    requires forall j :: 0 <= j < |rows| ==> i < |rows[j]|
    ensures Bad(key, rows, i, bad) == 0 <==> forall j :: 0 <= j < |rows| ==> !bad(key, rows[j][i])
  {
    if rows == [] {
    } else {
      var n := |rows| - 1;
      NoneIsBad(key, rows[..n], i, bad);
      assert forall j :: 0 <= j < n ==> rows[..n][j] == rows[j];
    }
  }

  // The rows of a key whose value is bad.
  ghost function BadRows(key: string, rows: seq<Row>, i: nat, bad: (string, string) -> bool): set<int>
    requires forall j :: 0 <= j < |rows| ==> i < |rows[j]|
  {
    set j | 0 <= j < |rows| && bad(key, rows[j][i])
  }

  // Each bad value is counted once.
  lemma {:induction false} BadIsASize(key: string, rows: seq<Row>, i: nat, bad: (string, string) -> bool)
    requires forall j :: 0 <= j < |rows| ==> i < |rows[j]|
    ensures Bad(key, rows, i, bad) == |BadRows(key, rows, i, bad)|
  {
    if rows == [] {
      assert BadRows(key, rows, i, bad) == {};
    } else {
      var n := |rows| - 1;
      BadIsASize(key, rows[..n], i, bad);
      BadRowsOfOneMore(key, rows, i, bad);
      hide BadRows;
    }
  }

  lemma BadRowsOfOneMore(key: string, rows: seq<Row>, i: nat, bad: (string, string) -> bool)
    requires rows != [] && forall j :: 0 <= j < |rows| ==> i < |rows[j]|
    ensures var n := |rows| - 1;
            |BadRows(key, rows, i, bad)| == |BadRows(key, rows[..n], i, bad)| + if bad(key, rows[n][i]) then 1 else 0
  {
    var n := |rows| - 1;
    var before := BadRows(key, rows[..n], i, bad);
    assert forall j :: 0 <= j < n ==> rows[..n][j] == rows[j];
    assert BadRows(key, rows, i, bad) == before + if bad(key, rows[n][i]) then {n} else {};
    assert n !in before;
  }

  ghost function BadAt(columns: seq<string>, rows: Rows, i: nat, bad: (string, string) -> bool): string -> int
    requires i < |columns| && Fit(columns, rows)
  {
    key => if key in rows then Bad(key, rows[key], i, bad) else 0
  }

  // No value is counted exactly when none is bad.
  lemma NoneIsBadAtAll(columns: seq<string>, rows: Rows, i: nat, bad: (string, string) -> bool)
    requires i < |columns| && Fit(columns, rows)
    ensures 0 <= Sum(rows.Keys, BadAt(columns, rows, i, bad))
    ensures Sum(rows.Keys, BadAt(columns, rows, i, bad)) == 0 <==>
              forall key, value :: IsCell(rows, i, key, value) ==> !bad(key, value)
  {
    var f := BadAt(columns, rows, i, bad);
    SumIsNotNegative(rows.Keys, f);
    SumIsZero(rows.Keys, f);
    forall key | key in rows
      ensures f(key) == 0 <==> forall value :: IsCell(rows, i, key, value) ==> !bad(key, value)
    {
      BadOfAKey(columns, rows, i, key, bad);
    }
  }

  lemma BadOfAKey(columns: seq<string>, rows: Rows, i: nat, key: string, bad: (string, string) -> bool)
    requires i < |columns| && Fit(columns, rows) && key in rows
    ensures Bad(key, rows[key], i, bad) == 0 <==> forall value :: IsCell(rows, i, key, value) ==> !bad(key, value)
  {
    NoneIsBad(key, rows[key], i, bad);
    hide Bad;
    forall j | 0 <= j < |rows[key]|
      ensures IsCell(rows, i, key, rows[key][j][i])
    {
    }
  }

  lemma RowsFit(columns: seq<string>, rows: Rows, i: nat, key: string, bad: (string, string) -> bool)
    requires i < |columns| && Fit(columns, rows) && key in rows
    ensures forall j :: 0 <= j < |rows[key]| ==> i < |rows[key][j]|
    ensures BadAt(columns, rows, i, bad)(key) == Bad(key, rows[key], i, bad)
  {
  }

  lemma PlusTwice(violations: Violations, k: (string, Rule), a: nat, b: nat)
    ensures Plus(Plus(violations, k, a), k, b) == Plus(violations, k, a + b)
  {
  }

  // What a count adds to a result: nothing, or violations of one rule that were told.
  twostate predicate Adds(result: TableResult, k: (string, Rule), n: nat)
    reads result
  {
    && result.Valid() && result.View() == old(result.View())
    && result.ruleViolations == Plus(old(result.ruleViolations), k, n)
    && (n == 0 ==> result.told == old(result.told))
    && (n > 0 ==> result.told != [])
  }

  method CountBadOfKey(result: TableResult, column: string, i: nat, rule: Rule, key: string, rows: seq<Row>,
                       bad: (string, string) -> bool)
    requires result.Valid() && forall j :: 0 <= j < |rows| ==> i < |rows[j]|
    modifies result`ruleViolations, result`samples, result`told
    ensures Adds(result, (column, rule), Bad(key, rows, i, bad))
  {
    hide TableResult.Valid, Plus;
    PlusNothing(result.ruleViolations, (column, rule));
    assert rows[..0] == [];
    for j := 0 to |rows|
      invariant Adds(result, (column, rule), Bad(key, rows[..j], i, bad))
    {
      assert rows[..j + 1][..j] == rows[..j];
      if bad(key, rows[j][i]) {
        PlusTwice(old(result.ruleViolations), (column, rule), Bad(key, rows[..j], i, bad), 1);
        result.Violation(column, rule, key);
      }
    }
    assert rows[..|rows|] == rows;
  }

  lemma PlusNothing(violations: Violations, k: (string, Rule))
    ensures Plus(violations, k, 0) == violations
  {
  }

  // Every value of the column is looked at, the keys taken in any order.
  method CountBad(result: TableResult, columns: seq<string>, i: nat, rule: Rule, rows: Rows,
                  bad: (string, string) -> bool) returns (ghost n: nat)
    requires result.Valid() && i < |columns| && Fit(columns, rows)
    modifies result`ruleViolations, result`samples, result`told
    ensures n == Sum(rows.Keys, BadAt(columns, rows, i, bad)) && Adds(result, (columns[i], rule), n)
  {
    hide TableResult.Valid, Plus, Bad, BadAt, Fit;
    PlusNothing(result.ruleViolations, (columns[i], rule));
    n := 0;
    var todo := rows.Keys;
    ghost var done: set<string> := {};
    while todo != {}
      invariant todo !! done && todo + done == rows.Keys
      invariant n == Sum(done, BadAt(columns, rows, i, bad)) && Adds(result, (columns[i], rule), n)
    {
      var key :| key in todo;
      RowsFit(columns, rows, i, key, bad);
      ghost var more := Bad(key, rows[key], i, bad);
      SumGrows(done, BadAt(columns, rows, i, bad), key);
      PlusTwice(old(result.ruleViolations), (columns[i], rule), n, more);
      CountBadOfKey(result, columns[i], i, rule, key, rows[key], bad);
      n := n + more;
      todo := todo - {key};
      done := done + {key};
    }
    assert done == rows.Keys;
  }

  // ---- Values that stand twice ----

  ghost function Distinct(cells: multiset<string>): set<string> {
    set value | value in cells && value != NULL_TEXT
  }

  // How many values but NULL stand after another of the same.
  ghost function Repeats(cells: multiset<string>): int {
    |cells| - cells[NULL_TEXT] - |Distinct(cells)|
  }

  lemma RepeatsOneMore(cells: multiset<string>, value: string)
    ensures Repeats(cells + multiset{value}) ==
            Repeats(cells) + if value != NULL_TEXT && value in cells then 1 else 0
  {
    var more := cells + multiset{value};
    if value != NULL_TEXT && value !in cells {
      assert Distinct(more) == Distinct(cells) + {value};
    } else {
      assert Distinct(more) == Distinct(cells);
    }
  }

  // Nothing is counted exactly when no value but NULL stands twice.
  lemma {:induction false} NoneRepeats(cells: multiset<string>)
    ensures 0 <= Repeats(cells)
    ensures Repeats(cells) == 0 <==> NoneTwice(cells)
    decreases |cells|
  {
    if value :| value in cells {
      var fewer := cells - multiset{value};
      assert fewer + multiset{value} == cells;
      RepeatsOneMore(fewer, value);
      NoneRepeats(fewer);
      TwiceOneMore(fewer, value);
    } else {
      assert cells == multiset{};
      assert Distinct(cells) == {};
    }
  }

  lemma TwiceOneMore(cells: multiset<string>, value: string)
    ensures NoneTwice(cells + multiset{value}) <==> NoneTwice(cells) && (value != NULL_TEXT ==> value !in cells)
  {
    var more := cells + multiset{value};
    assert more[value] == cells[value] + 1;
    if NoneTwice(more) {
      forall other | other in cells && other != NULL_TEXT
        ensures cells[other] == 1
      {
        assert more[other] == 1;
      }
    }
  }

  lemma {:induction false} CellsOneMore(rows: Rows, i: nat, keys: set<string>, key: string)
    requires keys <= rows.Keys && key in keys
    ensures Cells(rows, i, keys) == multiset(ColumnOf(rows[key], i)) + Cells(rows, i, keys - {key})
    decreases |keys|
  {
    hide ColumnOf;
    var other :| other in keys && Cells(rows, i, keys) ==
                                  multiset(ColumnOf(rows[other], i)) + Cells(rows, i, keys - {other});
    if other != key {
      CellsOneMore(rows, i, keys - {other}, key);
      CellsOneMore(rows, i, keys - {key}, other);
      assert keys - {other} - {key} == keys - {key} - {other};
    }
  }

  ghost function ValuesOf(cells: multiset<string>): set<string> { set value | value in cells }

  lemma ValuesOneMore(cells: multiset<string>, value: string)
    ensures ValuesOf(cells + multiset{value}) == ValuesOf(cells) + {value}
    ensures value in ValuesOf(cells) <==> value in cells
  {
  }

  // The values seen so far are those of the rows gone through.
  method CountTwiceOfKey(result: TableResult, column: string, i: nat, rows: seq<Row>, before: set<string>,
                         ghost cells: multiset<string>) returns (seen: set<string>, ghost n: nat)
    requires result.Valid() && forall j :: 0 <= j < |rows| ==> i < |rows[j]|
    requires before == ValuesOf(cells)
    modifies result`ruleViolations, result`samples, result`told
    ensures seen == ValuesOf(cells + multiset(ColumnOf(rows, i)))
    ensures n == Repeats(cells + multiset(ColumnOf(rows, i))) - Repeats(cells) && Adds(result, (column, Unique), n)
  {
    hide TableResult.Valid, Plus, Repeats, ValuesOf, ColumnOf;
    PlusNothing(result.ruleViolations, (column, Unique));
    seen, n := before, 0;
    ghost var all, done := ColumnOf(rows, i), cells;
    ColumnIs(rows, i);
    assert cells + multiset(all[..0]) == cells;
    for j := 0 to |rows|
      invariant done == cells + multiset(all[..j]) && seen == ValuesOf(done)
      invariant n == Repeats(done) - Repeats(cells) && Adds(result, (column, Unique), n)
    {
      var value := rows[j][i];
      RepeatsOneMore(done, value);
      ValuesOneMore(done, value);
      OneMoreOf(cells, all, j);
      if value != NULL_TEXT && value in seen {
        PlusTwice(old(result.ruleViolations), (column, Unique), n, 1);
        result.Violation(column, Unique, value);
        n := n + 1;
      }
      seen := seen + {value};
      done := done + multiset{value};
    }
    assert all[..|rows|] == all;
  }

  lemma ColumnIs(rows: seq<Row>, i: nat)
    ensures |ColumnOf(rows, i)| == |rows|
    ensures forall j :: 0 <= j < |rows| && i < |rows[j]| ==> ColumnOf(rows, i)[j] == rows[j][i]
  {
  }

  lemma OneMoreOf(cells: multiset<string>, all: seq<string>, j: nat)
    requires j < |all|
    ensures cells + multiset(all[..j + 1]) == cells + multiset(all[..j]) + multiset{all[j]}
  {
    assert all[..j + 1] == all[..j] + [all[j]];
  }

  method CountTwice(result: TableResult, columns: seq<string>, i: nat, rows: Rows) returns (ghost n: nat)
    requires result.Valid() && i < |columns| && Fit(columns, rows)
    modifies result`ruleViolations, result`samples, result`told
    ensures n == Repeats(Cells(rows, i, rows.Keys)) && Adds(result, (columns[i], Unique), n)
  {
    hide TableResult.Valid, Plus, Repeats, ColumnOf, Cells, ValuesOf;
    PlusNothing(result.ruleViolations, (columns[i], Unique));
    NothingRepeats(rows, i);
    n := 0;
    var seen: set<string> := {};
    var todo := rows.Keys;
    ghost var done: set<string> := {};
    while todo != {}
      invariant todo !! done && todo + done == rows.Keys
      invariant seen == ValuesOf(Cells(rows, i, done))
      invariant n == Repeats(Cells(rows, i, done)) && Adds(result, (columns[i], Unique), n)
    {
      var key :| key in todo;
      ghost var cells, more := Cells(rows, i, done), 0;
      CellsGrow(rows, i, done, key);
      seen, more := CountTwiceOfKey(result, columns[i], i, rows[key], seen, cells);
      PlusTwice(old(result.ruleViolations), (columns[i], Unique), n, more);
      n := n + more;
      todo := todo - {key};
      done := done + {key};
    }
    assert done == rows.Keys;
  }

  lemma CellsGrow(rows: Rows, i: nat, done: set<string>, key: string)
    requires done <= rows.Keys && key in rows && key !in done
    ensures Cells(rows, i, done + {key}) == Cells(rows, i, done) + multiset(ColumnOf(rows[key], i))
  {
    hide ColumnOf, Cells;
    CellsOneMore(rows, i, done + {key}, key);
    assert done + {key} - {key} == done;
  }

  lemma NothingRepeats(rows: Rows, i: nat)
    ensures Cells(rows, i, {}) == multiset{} && Repeats(multiset{}) == 0 && ValuesOf(multiset{}) == {}
  {
    assert Distinct(multiset{}) == {};
  }

  // ---- The rules of the columns ----

  // The values of a column on one side.
  function ValuesIn(rows: Rows, i: nat): set<string> {
    set key, j | key in rows && 0 <= j < |rows[key]| && i < |rows[key][j]| :: rows[key][j][i]
  }

  lemma ValuesAreCells(rows: Rows, i: nat)
    ensures forall value :: value in ValuesIn(rows, i) <==> exists key :: IsCell(rows, i, key, value)
  {
    forall value | value in ValuesIn(rows, i)
      ensures exists key :: IsCell(rows, i, key, value)
    {
      var key, j :| key in rows && 0 <= j < |rows[key]| && i < |rows[key][j]| && rows[key][j][i] == value;
      assert IsCell(rows, i, key, value);
    }
  }

  function DiffersFrom(columns: seq<string>, i: nat, sides: Sides): (string, string) -> bool {
    (key, value) => Differs(columns, i, sides, key, value)
  }

  function IsNotNull(): (string, string) -> bool {
    (key, value) => value != NULL_TEXT
  }

  function IsCopied(values: set<string>): (string, string) -> bool {
    (key, value) => value != NULL_TEXT && value in values
  }

  // How many values of a column break a rule.
  ghost function Violating(columns: seq<string>, i: nat, rule: Rule, sides: Sides): int
    requires i < |columns| && Fit(columns, sides.dest)
  {
    match rule
    case Unchanged => Sum(sides.dest.Keys, BadAt(columns, sides.dest, i, DiffersFrom(columns, i, sides)))
    case Null => Sum(sides.dest.Keys, BadAt(columns, sides.dest, i, IsNotNull()))
    case Unique => Repeats(Cells(sides.dest, i, sides.dest.Keys))
    case NotInSourceSet => Sum(sides.dest.Keys, BadAt(columns, sides.dest, i, IsCopied(ValuesIn(sides.source, i))))
    case _ => 0
  }

  // No value breaks a rule exactly when the rule holds.
  lemma NoneIsViolating(columns: seq<string>, i: nat, rule: Rule, sides: Sides)
    requires i < |columns| && Fit(columns, sides.source) && Fit(columns, sides.dest)
    ensures 0 <= Violating(columns, i, rule, sides)
    ensures Violating(columns, i, rule, sides) == 0 <==> Holds(columns, i, rule, sides)
  {
    hide Repeats, Cells, NoneTwice, IsCell, Sum, BadAt, Differs, UnchangedHolds, ValuesIn, Fit;
    match rule
    case Unchanged =>
      NoneIsBadAtAll(columns, sides.dest, i, DiffersFrom(columns, i, sides));
      NoneDiffers(columns, i, sides);
    case Null => NoneIsBadAtAll(columns, sides.dest, i, IsNotNull());
    case Unique => NoneRepeats(Cells(sides.dest, i, sides.dest.Keys));
    case NotInSourceSet =>
      NoneIsBadAtAll(columns, sides.dest, i, IsCopied(ValuesIn(sides.source, i)));
      ValuesAreCells(sides.source, i);
    case _ =>
  }

  predicate Differs(columns: seq<string>, i: nat, sides: Sides, key: string, value: string) {
    IsCompared(sides, key) && i < |columns| && |sides.source[key][0]| == |columns|
    && value != WantedValue(columns, i, sides, key)
  }

  lemma NoneDiffers(columns: seq<string>, i: nat, sides: Sides)
    requires i < |columns| && Fit(columns, sides.source)
    ensures UnchangedHolds(columns, i, sides) <==>
              forall key, value :: IsCell(sides.dest, i, key, value) ==> !Differs(columns, i, sides, key, value)
  {
    hide IsCell;
  }

  // Counts the values that break one rule; a rule that is not known is told so.
  method CheckRule(result: TableResult, columns: seq<string>, i: nat, rule: Rule, sides: Sides)
    returns (known: bool, ghost n: nat)
    requires result.Valid() && i < |columns| && Fit(columns, sides.source) && Fit(columns, sides.dest)
    modifies result`ruleViolations, result`samples, result`told
    ensures known <==> !rule.Other?
    ensures n == Violating(columns, i, rule, sides) && Adds(result, (columns[i], rule), n)
  {
    hide TableResult.Valid, Plus, Repeats, Cells, Sum, BadAt, Differs, ValuesIn, Fit;
    PlusNothing(result.ruleViolations, (columns[i], rule));
    known, n := true, 0;
    match rule
    case Unchanged => n := CountBad(result, columns, i, rule, sides.dest, DiffersFrom(columns, i, sides));
    case Null => n := CountBad(result, columns, i, rule, sides.dest, IsNotNull());
    case Unique => n := CountTwice(result, columns, i, sides.dest);
    case NotInSourceSet =>
      n := CountBad(result, columns, i, rule, sides.dest, IsCopied(ValuesIn(sides.source, i)));
    case Other(_) => known := false;
    case _ =>
  }

  function RulesOf(rules: map<string, seq<Rule>>, column: string): seq<Rule> {
    if column in rules then rules[column] else []
  }

  // A rule is broken in one of the first columns, that holds it.
  ghost predicate IsBroken(
    columns: seq<string>, rules: map<string, seq<Rule>>, sides: Sides, k: (string, Rule), upTo: nat)
    requires upTo <= |columns| && Fit(columns, sides.source) && Fit(columns, sides.dest)
  {
    exists i: nat :: i < upTo && columns[i] == k.0 && k.1 in RulesOf(rules, k.0) && !Holds(columns, i, k.1, sides)
  }

  predicate AllKnown(held: seq<Rule>) {
    forall rule :: rule in held ==> !rule.Other?
  }

  // What is counted after the rules of a column, and after the columns.
  ghost function AfterRules(v: Violations, columns: seq<string>, i: nat, held: seq<Rule>, sides: Sides): Violations
    requires i < |columns| && Fit(columns, sides.source) && Fit(columns, sides.dest)
  {
    if held == [] then v
    else
      var before, rule := AfterRules(v, columns, i, held[..|held| - 1], sides), held[|held| - 1];
      NoneIsViolating(columns, i, rule, sides);
      Plus(before, (columns[i], rule), Violating(columns, i, rule, sides))
  }

  ghost function AfterColumns(
    v: Violations, columns: seq<string>, upTo: nat, rules: map<string, seq<Rule>>, sides: Sides): Violations
    requires upTo <= |columns| && Fit(columns, sides.source) && Fit(columns, sides.dest)
  {
    if upTo == 0 then v
    else
      AfterRules(AfterColumns(v, columns, upTo - 1, rules, sides), columns, upTo - 1,
                 RulesOf(rules, columns[upTo - 1]), sides)
  }

  lemma {:induction false} AfterTheRules(
    v: Violations, columns: seq<string>, i: nat, held: seq<Rule>, sides: Sides, k: (string, Rule))
    requires i < |columns| && Fit(columns, sides.source) && Fit(columns, sides.dest)
    ensures k in AfterRules(v, columns, i, held, sides) <==>
              k in v || (k.0 == columns[i] && k.1 in held && !Holds(columns, i, k.1, sides))
  {
    hide Fit, Holds, Violating, Plus;
    if held != [] {
      var before, rule := held[..|held| - 1], held[|held| - 1];
      AfterTheRules(v, columns, i, before, sides, k);
      NoneIsViolating(columns, i, rule, sides);
      PlusIsThere(AfterRules(v, columns, i, before, sides), (columns[i], rule), Violating(columns, i, rule, sides));
      assert held == before + [rule];
    }
  }

  // A column and rule are counted exactly when the column is to hold the rule, and does not.
  lemma {:induction false} AfterTheColumns(
    v: Violations, columns: seq<string>, upTo: nat, rules: map<string, seq<Rule>>, sides: Sides, k: (string, Rule))
    requires upTo <= |columns| && Fit(columns, sides.source) && Fit(columns, sides.dest)
    ensures k in AfterColumns(v, columns, upTo, rules, sides) <==> k in v || IsBroken(columns, rules, sides, k, upTo)
  {
    hide Fit, Holds, AfterRules, RulesOf;
    if upTo > 0 {
      AfterTheColumns(v, columns, upTo - 1, rules, sides, k);
      AfterTheRules(AfterColumns(v, columns, upTo - 1, rules, sides), columns, upTo - 1,
                    RulesOf(rules, columns[upTo - 1]), sides, k);
      OneMoreColumn(columns, rules, sides, k, upTo - 1);
    }
  }

  lemma PlusIsThere(violations: Violations, k: (string, Rule), n: nat)
    ensures forall other :: other in Plus(violations, k, n) <==> other in violations || (other == k && n > 0)
  {
  }

  // What a check leaves of a result: it is sound, counts the same rows, and tells gaps only.
  twostate predicate Checked(result: TableResult)
    reads result
  {
    && result.Valid() && result.View() == old(result.View())
    && (old(result.Precise()) ==> result.Precise())
  }

  lemma PlusIsSome(violations: Violations, k: (string, Rule), n: nat)
    ensures n > 0 ==> Plus(violations, k, n) != map[]
    ensures n == 0 ==> Plus(violations, k, n) == violations
  {
    if n > 0 {
      assert k in Plus(violations, k, n);
    }
  }

  // The rules a column holds, in their order.
  method CheckColumn(result: TableResult, columns: seq<string>, i: nat, held: seq<Rule>, sides: Sides)
    returns (known: bool)
    requires result.Valid() && i < |columns| && Fit(columns, sides.source) && Fit(columns, sides.dest)
    modifies result`ruleViolations, result`samples, result`told
    ensures Checked(result) && (known <==> AllKnown(held))
    ensures known ==> result.ruleViolations == AfterRules(old(result.ruleViolations), columns, i, held, sides)
  {
    hide TableResult.Valid, Violating, Plus, Fit;
    known := true;
    assert held[..0] == [];
    for m := 0 to |held|
      invariant Checked(result) && AllKnown(held[..m])
      invariant result.ruleViolations == AfterRules(old(result.ruleViolations), columns, i, held[..m], sides)
    {
      var rule := held[m];
      ghost var before, n := result.ruleViolations, 0;
      known, n := CheckRule(result, columns, i, rule, sides);
      PlusIsSome(before, (columns[i], rule), n);
      assert held[..m + 1] == held[..m] + [rule] && held[..m + 1][..m] == held[..m];
      if !known {
        return;
      }
    }
    assert held[..|held|] == held;
  }

  // All the columns: an unknown rule ends the check.
  method CheckRules(result: TableResult, columns: seq<string>, rules: map<string, seq<Rule>>, sides: Sides)
    returns (known: bool)
    requires result.Valid() && Fit(columns, sides.source) && Fit(columns, sides.dest)
    modifies result`ruleViolations, result`samples, result`told
    ensures Checked(result)
    ensures known <==> forall i :: 0 <= i < |columns| ==> AllKnown(RulesOf(rules, columns[i]))
    ensures known ==>
              result.ruleViolations == AfterColumns(old(result.ruleViolations), columns, |columns|, rules, sides)
  {
    hide TableResult.Valid, AllKnown, RulesOf, AfterRules, Fit;
    known := true;
    for i := 0 to |columns|
      invariant Checked(result) && forall j :: 0 <= j < i ==> AllKnown(RulesOf(rules, columns[j]))
      invariant result.ruleViolations == AfterColumns(old(result.ruleViolations), columns, i, rules, sides)
    {
      known := CheckColumn(result, columns, i, RulesOf(rules, columns[i]), sides);
      if !known {
        return;
      }
    }
  }

  lemma OneMoreColumn(columns: seq<string>, rules: map<string, seq<Rule>>, sides: Sides, k: (string, Rule), i: nat)
    requires i < |columns| && Fit(columns, sides.source) && Fit(columns, sides.dest)
    ensures IsBroken(columns, rules, sides, k, i + 1) <==>
              IsBroken(columns, rules, sides, k, i)
              || (k.0 == columns[i] && k.1 in RulesOf(rules, columns[i]) && !Holds(columns, i, k.1, sides))
  {
    hide Holds, RulesOf, Fit;
    if IsBroken(columns, rules, sides, k, i + 1) {
      var j: nat :| j < i + 1 && columns[j] == k.0 && k.1 in RulesOf(rules, k.0) && !Holds(columns, j, k.1, sides);
      assert j < i ==> IsBroken(columns, rules, sides, k, i);
    }
  }
}
