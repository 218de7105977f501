// The comparison of the rows of a table with what is expected of them. Rows are grouped by key.
module TableComparison {
  import opened Sums
  import opened Wrappers
  import opened TableResults
  import opened ColumnRules

  ghost function RowsAt(rows: Rows): string -> int {
    key => Got(rows, key)
  }

  ghost function IsDropped(expected: map<string, ExpectedRow>, key: string): bool {
    key in expected && expected[key].verdict == Dropped
  }

  ghost function Wanted(expected: map<string, ExpectedRow>, key: string): int {
    if key in expected && expected[key].verdict != Dropped then expected[key].occurrences else 0
  }

  ghost function ExpectedAt(expected: map<string, ExpectedRow>): string -> int {
    key => Wanted(expected, key)
  }

  ghost function MissingAt(expected: map<string, ExpectedRow>, dest: Rows): string -> int {
    key => if !IsDropped(expected, key) && Got(dest, key) < Wanted(expected, key)
           then Wanted(expected, key) - Got(dest, key) else 0
  }

  ghost function LeakedAt(expected: map<string, ExpectedRow>, dest: Rows): string -> int {
    key => if IsDropped(expected, key) then Got(dest, key) else 0
  }

  ghost function DuplicatedAt(expected: map<string, ExpectedRow>, dest: Rows): string -> int {
    key => if !IsDropped(expected, key) && Got(dest, key) > Wanted(expected, key)
           then Got(dest, key) - Wanted(expected, key) else 0
  }

  ghost function UnexpectedAt(expected: map<string, ExpectedRow>, dest: Rows): string -> int {
    key => if key !in expected then Got(dest, key) else 0
  }

  ghost function CountsOf(expected: map<string, ExpectedRow>, source: Rows, dest: Rows): Counts {
    Counts(Sum(source.Keys, RowsAt(source)),
           Sum(expected.Keys, ExpectedAt(expected)),
           Sum(dest.Keys, RowsAt(dest)),
           Sum(expected.Keys, MissingAt(expected, dest)),
           Sum(expected.Keys, LeakedAt(expected, dest)),
           Sum(dest.Keys, UnexpectedAt(expected, dest)),
           Sum(expected.Keys, DuplicatedAt(expected, dest)))
  }

  // ---- What the counters say ----

  lemma GotAmongExpected(expected: map<string, ExpectedRow>, dest: Rows)
    ensures Sum(dest.Keys, RowsAt(dest)) ==
            Sum(expected.Keys, RowsAt(dest)) + Sum(dest.Keys, UnexpectedAt(expected, dest))
  {
    var known, unknown := dest.Keys * expected.Keys, dest.Keys - expected.Keys;
    var absent := expected.Keys - dest.Keys;
    var f, g := RowsAt(dest), UnexpectedAt(expected, dest);
    assert dest.Keys == known + unknown && expected.Keys == known + absent;
    SumOfTwoSets(known, unknown, f);
    SumOfTwoSets(known, absent, f);
    SumOfTwoSets(known, unknown, g);
    SumOfZeros(absent, f);
    SumOfZeros(known, g);
    SumOfEquals(unknown, f, g);
  }

  // Every row is accounted for: the rows of the destination and the missing ones are the expected
  // ones and the leaked, unexpected and duplicated ones.
  lemma RowsAreAccountedFor(expected: map<string, ExpectedRow>, source: Rows, dest: Rows)
    ensures var r := CountsOf(expected, source, dest);
            r.destinationRows + r.missing == r.expectedRows + r.leaked + r.unexpected + r.duplicated
  {
    GotAmongExpected(expected, dest);
    SumsBalance(expected.Keys, RowsAt(dest), MissingAt(expected, dest), ExpectedAt(expected),
                LeakedAt(expected, dest), DuplicatedAt(expected, dest));
  }

  // The destination holds each key that is kept as many times as expected, and no other row.
  ghost predicate AsExpected(expected: map<string, ExpectedRow>, dest: Rows) {
    && (forall key :: key in expected ==>
          Got(dest, key) == if expected[key].verdict == Dropped then 0 else expected[key].occurrences)
    && (forall key :: key in dest && key !in expected ==> dest[key] == [])
  }

  // No gap is counted exactly when the destination is as expected.
  lemma NoGapIsAsExpected(expected: map<string, ExpectedRow>, source: Rows, dest: Rows)
    ensures var r := CountsOf(expected, source, dest);
            r.missing == 0 && r.leaked == 0 && r.unexpected == 0 && r.duplicated == 0
            <==> AsExpected(expected, dest)
  {
    hide AsExpected, MissingAt, LeakedAt, UnexpectedAt, DuplicatedAt, Sum;
    var m, l := MissingAt(expected, dest), LeakedAt(expected, dest);
    var u, d := UnexpectedAt(expected, dest), DuplicatedAt(expected, dest);
    NoneIsNegative(expected, dest);
    SumIsZero(expected.Keys, m);
    SumIsZero(expected.Keys, l);
    SumIsZero(dest.Keys, u);
    SumIsZero(expected.Keys, d);
    ZeroAtEachKey(expected, dest);
  }

  lemma NoneIsNegative(expected: map<string, ExpectedRow>, dest: Rows)
    ensures forall key :: 0 <= MissingAt(expected, dest)(key) && 0 <= LeakedAt(expected, dest)(key)
    ensures forall key :: 0 <= UnexpectedAt(expected, dest)(key) && 0 <= DuplicatedAt(expected, dest)(key)
  {
  }

  lemma ZeroAtEachKey(expected: map<string, ExpectedRow>, dest: Rows)
    ensures AsExpected(expected, dest) <==>
            && (forall key :: key in expected.Keys ==>
                  && MissingAt(expected, dest)(key) == 0
                  && LeakedAt(expected, dest)(key) == 0
                  && DuplicatedAt(expected, dest)(key) == 0)
            && (forall key :: key in dest.Keys ==> UnexpectedAt(expected, dest)(key) == 0)
  {
  }

  // No gap is counted below zero, so a sum of them hides none.
  lemma GapsAreNotNegative(expected: map<string, ExpectedRow>, source: Rows, dest: Rows)
    ensures var r := CountsOf(expected, source, dest);
            0 <= r.missing && 0 <= r.leaked && 0 <= r.unexpected && 0 <= r.duplicated
  {
    SumIsNotNegative(expected.Keys, MissingAt(expected, dest));
    SumIsNotNegative(expected.Keys, LeakedAt(expected, dest));
    SumIsNotNegative(dest.Keys, UnexpectedAt(expected, dest));
    SumIsNotNegative(expected.Keys, DuplicatedAt(expected, dest));
  }

  // ---- The rows each counter names ----

  // The j-th rows of the keys of a side.
  ghost function RowsOf(rows: Rows): set<(string, int)> {
    set key, j | key in rows && 0 <= j < |rows[key]| :: (key, j)
  }

  // Rows that are there though their key is dropped.
  ghost function LeakedRows(expected: map<string, ExpectedRow>, dest: Rows): set<(string, int)> {
    set key, j | key in expected && expected[key].verdict == Dropped && 0 <= j < Got(dest, key) :: (key, j)
  }

  // Rows of a key that is not dropped, past as many as expected.
  ghost function SurplusRows(expected: map<string, ExpectedRow>, dest: Rows): set<(string, int)> {
    set key, j | key in expected && expected[key].verdict != Dropped && expected[key].occurrences <= j < Got(dest, key)
      :: (key, j)
  }

  // Rows of a key that is not dropped, expected and not there.
  ghost function AbsentRows(expected: map<string, ExpectedRow>, dest: Rows): set<(string, int)> {
    set key, j | key in expected && expected[key].verdict != Dropped && Got(dest, key) <= j < expected[key].occurrences
      :: (key, j)
  }

  // Rows of a key that nothing is expected of.
  ghost function UnknownRows(expected: map<string, ExpectedRow>, dest: Rows): set<(string, int)> {
    set key, j | key in dest && key !in expected && 0 <= j < |dest[key]| :: (key, j)
  }

  ghost function WantedRows(expected: map<string, ExpectedRow>): set<(string, int)> {
    set key, j | key in expected && expected[key].verdict != Dropped && 0 <= j < expected[key].occurrences :: (key, j)
  }

  ghost function Ranges(s: set<string>, low: string -> int, high: string -> int): set<(string, int)> {
    set key, j | key in s && low(key) <= j < high(key) :: (key, j)
  }

  lemma {:induction false} RangeSize(key: string, low: int, high: int)
    ensures |(set j | low <= j < high :: (key, j))| == if low < high then high - low else 0
    decreases high - low
  {
    var range := set j | low <= j < high :: (key, j);
    if low < high {
      RangeSize(key, low, high - 1);
      assert range == (set j | low <= j < high - 1 :: (key, j)) + {(key, high - 1)};
    } else {
      assert range == {};
    }
  }

  // A sum of sizes is the size of what they are the sizes of.
  lemma {:induction false} SumIsASize(s: set<string>, f: string -> int, low: string -> int, high: string -> int)
    requires forall key :: key in s ==> f(key) == if low(key) < high(key) then high(key) - low(key) else 0
    ensures Sum(s, f) == |Ranges(s, low, high)|
  {
    if s == {} {
      assert Ranges(s, low, high) == {};
    } else {
      var key :| key in s;
      SumOfOneMore(s, f, key);
      SumIsASize(s - {key}, f, low, high);
      RangesOfOneMore(s, key, low, high);
      hide Ranges;
    }
  }

  lemma RangesOfOneMore(s: set<string>, key: string, low: string -> int, high: string -> int)
    requires key in s
    ensures |Ranges(s, low, high)| ==
            |Ranges(s - {key}, low, high)| + if low(key) < high(key) then high(key) - low(key) else 0
  {
    RangeSize(key, low(key), high(key));
    var range := set j | low(key) <= j < high(key) :: (key, j);
    assert Ranges(s, low, high) == Ranges(s - {key}, low, high) + range;
    assert Ranges(s - {key}, low, high) !! range;
  }

  lemma SideIsASize(rows: Rows)
    ensures Sum(rows.Keys, RowsAt(rows)) == |RowsOf(rows)|
  {
    SumIsASize(rows.Keys, RowsAt(rows), key => 0, key => Got(rows, key));
    assert Ranges(rows.Keys, key => 0, key => Got(rows, key)) == RowsOf(rows);
  }

  lemma LeakedIsASize(expected: map<string, ExpectedRow>, dest: Rows)
    ensures Sum(expected.Keys, LeakedAt(expected, dest)) == |LeakedRows(expected, dest)|
  {
    var high := key => if IsDropped(expected, key) then Got(dest, key) else 0;
    SumIsASize(expected.Keys, LeakedAt(expected, dest), key => 0, high);
    assert Ranges(expected.Keys, key => 0, high) == LeakedRows(expected, dest);
  }

  lemma SurplusIsASize(expected: map<string, ExpectedRow>, dest: Rows)
    ensures Sum(expected.Keys, DuplicatedAt(expected, dest)) == |SurplusRows(expected, dest)|
  {
    var low := key => Wanted(expected, key);
    var high := key => if IsDropped(expected, key) then 0 else Got(dest, key);
    SumIsASize(expected.Keys, DuplicatedAt(expected, dest), low, high);
    assert Ranges(expected.Keys, low, high) == SurplusRows(expected, dest);
  }

  lemma AbsentIsASize(expected: map<string, ExpectedRow>, dest: Rows)
    ensures Sum(expected.Keys, MissingAt(expected, dest)) == |AbsentRows(expected, dest)|
  {
    var low := key => Got(dest, key);
    var high := key => Wanted(expected, key);
    SumIsASize(expected.Keys, MissingAt(expected, dest), low, high);
    assert Ranges(expected.Keys, low, high) == AbsentRows(expected, dest);
  }

  lemma UnknownIsASize(expected: map<string, ExpectedRow>, dest: Rows)
    ensures Sum(dest.Keys, UnexpectedAt(expected, dest)) == |UnknownRows(expected, dest)|
  {
    var high := key => if key in expected then 0 else Got(dest, key);
    SumIsASize(dest.Keys, UnexpectedAt(expected, dest), key => 0, high);
    assert Ranges(dest.Keys, key => 0, high) == UnknownRows(expected, dest);
  }

  lemma WantedIsASize(expected: map<string, ExpectedRow>)
    requires forall key :: key in expected ==> 0 <= expected[key].occurrences
    ensures Sum(expected.Keys, ExpectedAt(expected)) == |WantedRows(expected)|
  {
    var high := key => Wanted(expected, key);
    SumIsASize(expected.Keys, ExpectedAt(expected), key => 0, high);
    assert Ranges(expected.Keys, key => 0, high) == WantedRows(expected);
  }

  // Each counter is the number of the rows it names.
  ghost predicate CountsItsRows(c: Counts, sides: Sides) {
    && c.sourceRows == |RowsOf(sides.source)| && c.destinationRows == |RowsOf(sides.dest)|
    && c.leaked == |LeakedRows(sides.expected, sides.dest)|
    && c.duplicated == |SurplusRows(sides.expected, sides.dest)|
    && c.missing == |AbsentRows(sides.expected, sides.dest)|
    && c.unexpected == |UnknownRows(sides.expected, sides.dest)|
    && ((forall key :: key in sides.expected ==> 0 <= sides.expected[key].occurrences) ==>
          c.expectedRows == |WantedRows(sides.expected)|)
  }

  lemma CountersCountTheirRows(sides: Sides)
    ensures CountsItsRows(CountsOf(sides.expected, sides.source, sides.dest), sides)
  {
    hide RowsAt, LeakedAt, DuplicatedAt, MissingAt, UnexpectedAt, ExpectedAt, RowsOf, LeakedRows, SurplusRows,
         AbsentRows, UnknownRows, WantedRows, Sum;
    SideIsASize(sides.source);
    SideIsASize(sides.dest);
    LeakedIsASize(sides.expected, sides.dest);
    SurplusIsASize(sides.expected, sides.dest);
    AbsentIsASize(sides.expected, sides.dest);
    UnknownIsASize(sides.expected, sides.dest);
    if forall key :: key in sides.expected ==> 0 <= sides.expected[key].occurrences {
      WantedIsASize(sides.expected);
    }
  }

  // Each counter is zero exactly when there is nothing of its own kind.
  ghost predicate TellsItsKind(c: Counts, sides: Sides) {
    && (c.leaked == 0 <==>
          forall key :: key in sides.expected && sides.expected[key].verdict == Dropped ==> Got(sides.dest, key) == 0)
    && (c.duplicated == 0 <==>
          forall key :: key in sides.expected && sides.expected[key].verdict != Dropped ==>
            Got(sides.dest, key) <= sides.expected[key].occurrences)
    && (c.missing == 0 <==>
          forall key :: key in sides.expected && sides.expected[key].verdict != Dropped ==>
            sides.expected[key].occurrences <= Got(sides.dest, key))
    && (c.unexpected == 0 <==> forall key :: key in sides.dest && sides.dest[key] != [] ==> key in sides.expected)
  }

  lemma EachCounterTellsItsKind(c: Counts, sides: Sides)
    requires CountsItsRows(c, sides)
    ensures TellsItsKind(c, sides)
  {
    LeakedTells(sides);
    SurplusTells(sides);
    AbsentTells(sides);
    UnknownTells(sides);
    hide RowsOf, LeakedRows, SurplusRows, AbsentRows, UnknownRows, WantedRows, Got;
  }

  lemma LeakedTells(sides: Sides)
    ensures LeakedRows(sides.expected, sides.dest) == {} <==>
            forall key :: key in sides.expected && sides.expected[key].verdict == Dropped ==> Got(sides.dest, key) == 0
  {
    if key :| key in sides.expected && sides.expected[key].verdict == Dropped && Got(sides.dest, key) != 0 {
      assert (key, 0) in LeakedRows(sides.expected, sides.dest);
    }
  }

  lemma SurplusTells(sides: Sides)
    ensures SurplusRows(sides.expected, sides.dest) == {} <==>
            forall key :: key in sides.expected && sides.expected[key].verdict != Dropped ==>
              Got(sides.dest, key) <= sides.expected[key].occurrences
  {
    if key :| key in sides.expected && sides.expected[key].verdict != Dropped
              && sides.expected[key].occurrences < Got(sides.dest, key)
    {
      assert (key, sides.expected[key].occurrences) in SurplusRows(sides.expected, sides.dest);
    }
  }

  lemma AbsentTells(sides: Sides)
    ensures AbsentRows(sides.expected, sides.dest) == {} <==>
            forall key :: key in sides.expected && sides.expected[key].verdict != Dropped ==>
              sides.expected[key].occurrences <= Got(sides.dest, key)
  {
    if key :| key in sides.expected && sides.expected[key].verdict != Dropped
              && Got(sides.dest, key) < sides.expected[key].occurrences
    {
      assert (key, Got(sides.dest, key)) in AbsentRows(sides.expected, sides.dest);
    }
  }

  lemma UnknownTells(sides: Sides)
    ensures UnknownRows(sides.expected, sides.dest) == {} <==>
            forall key :: key in sides.dest && sides.dest[key] != [] ==> key in sides.expected
  {
    if key :| key in sides.dest && sides.dest[key] != [] && key !in sides.expected {
      assert (key, 0) in UnknownRows(sides.expected, sides.dest);
    }
  }

  // ---- The comparison ----

  // How many rows there are.
  method CountRows(rows: Rows) returns (count: int)
    ensures count == Sum(rows.Keys, RowsAt(rows))
  {
    count := 0;
    var todo := rows.Keys;
    ghost var done: set<string> := {};
    while todo != {}
      invariant todo !! done && todo + done == rows.Keys
      invariant count == Sum(done, RowsAt(rows))
    {
      var key :| key in todo;
      SumGrows(done, RowsAt(rows), key);
      count := count + |rows[key]|;
      todo := todo - {key};
      done := done + {key};
    }
    assert done == rows.Keys;
  }

  // What the keys dealt with so far count.
  ghost function CountsOfKeys(
    before: Counts, expected: map<string, ExpectedRow>, dest: Rows, done: set<string>): Counts
  {
    before.(expectedRows := Sum(done, ExpectedAt(expected)), missing := Sum(done, MissingAt(expected, dest)),
            leaked := Sum(done, LeakedAt(expected, dest)), duplicated := Sum(done, DuplicatedAt(expected, dest)))
  }

  // What one expected key adds to the counters.
  ghost function WithKey(c: Counts, want: ExpectedRow, got: nat): Counts {
    if want.verdict == Dropped then c.(leaked := c.leaked + got)
    else c.(expectedRows := c.expectedRows + want.occurrences,
            missing := c.missing + if got < want.occurrences then want.occurrences - got else 0,
            duplicated := c.duplicated + if got > want.occurrences then got - want.occurrences else 0)
  }

  lemma AtKey(expected: map<string, ExpectedRow>, dest: Rows, key: string)
    requires key in expected
    ensures var want, got := expected[key], Got(dest, key);
            && LeakedAt(expected, dest)(key) == (if want.verdict == Dropped then got else 0)
            && ExpectedAt(expected)(key) == (if want.verdict == Dropped then 0 else want.occurrences)
            && MissingAt(expected, dest)(key) ==
               (if want.verdict != Dropped && got < want.occurrences then want.occurrences - got else 0)
            && DuplicatedAt(expected, dest)(key) ==
               (if want.verdict != Dropped && got > want.occurrences then got - want.occurrences else 0)
  {
  }

  lemma OneMoreKey(
    before: Counts, expected: map<string, ExpectedRow>, dest: Rows, done: set<string>, key: string)
    requires key in expected && key !in done
    ensures CountsOfKeys(before, expected, dest, done + {key}) ==
            WithKey(CountsOfKeys(before, expected, dest, done), expected[key], Got(dest, key))
  {
    hide ExpectedAt, MissingAt, LeakedAt, DuplicatedAt, Got;
    AtKey(expected, dest, key);
    SumGrows(done, ExpectedAt(expected), key);
    SumGrows(done, MissingAt(expected, dest), key);
    SumGrows(done, LeakedAt(expected, dest), key);
    SumGrows(done, DuplicatedAt(expected, dest), key);
  }

  method CompareKey(result: TableResult, key: string, want: ExpectedRow, got: nat)
    requires result.Valid()
    modifies result
    ensures result.Valid() && result.View() == WithKey(old(result.View()), want, got)
    ensures result.ruleViolations == old(result.ruleViolations)
    ensures old(result.Precise()) ==> result.Precise()
  {
    hide Shown;
    if want.verdict == Dropped {
      if got > 0 {
        result.leaked := result.leaked + got;
        result.Sample(key);
      }
      return;
    }
    result.expectedRows := result.expectedRows + want.occurrences;
    if got < want.occurrences {
      result.missing := result.missing + want.occurrences - got;
      result.Sample(key);
    } else if got > want.occurrences {
      result.duplicated := result.duplicated + got - want.occurrences;
      result.Sample(key);
    }
  }

  method CompareExpected(result: TableResult, expected: map<string, ExpectedRow>, dest: Rows)
    requires result.Valid() && result.View() == CountsOfKeys(result.View(), expected, dest, {})
    modifies result
    ensures result.Valid() && result.View() == CountsOfKeys(old(result.View()), expected, dest, expected.Keys)
    ensures result.ruleViolations == old(result.ruleViolations)
    ensures old(result.Precise()) ==> result.Precise()
  {
    hide CountsOfKeys, TableResult.Valid, TableResult.Precise, WithKey, Got;
    ghost var before := result.View();
    var todo := expected.Keys;
    ghost var done: set<string> := {};
    while todo != {}
      invariant todo !! done && todo + done == expected.Keys
      invariant result.Valid() && result.View() == CountsOfKeys(before, expected, dest, done)
      invariant result.ruleViolations == old(result.ruleViolations)
      invariant old(result.Precise()) ==> result.Precise()
    {
      var key :| key in todo;
      OneMoreKey(before, expected, dest, done, key);
      CompareKey(result, key, expected[key], Got(dest, key));
      todo := todo - {key};
      done := done + {key};
    }
    assert done == expected.Keys;
  }

  // A row whose key is not expected.
  method CompareUnknown(result: TableResult, key: string, got: nat)
    requires result.Valid()
    modifies result
    ensures result.Valid() && result.View() == old(result.View()).(unexpected := old(result.unexpected) + got)
    ensures result.ruleViolations == old(result.ruleViolations)
    ensures got > 0 && old(result.Precise()) ==> result.Precise()
  {
    hide Shown;
    result.unexpected := result.unexpected + got;
    result.Sample(key);
  }

  // Rows are loaded by key: a key has one at least.
  ghost predicate NoneIsEmpty(rows: Rows) {
    forall key :: key in rows ==> rows[key] != []
  }

  method CompareUnexpected(result: TableResult, expected: map<string, ExpectedRow>, dest: Rows)
    requires result.Valid() && result.unexpected == 0
    modifies result
    ensures result.Valid()
    ensures result.View() == old(result.View()).(unexpected := Sum(dest.Keys, UnexpectedAt(expected, dest)))
    ensures result.ruleViolations == old(result.ruleViolations)
    ensures NoneIsEmpty(dest) && old(result.Precise()) ==> result.Precise()
  {
    hide TableResult.Valid, TableResult.Precise;
    var todo := dest.Keys;
    ghost var done: set<string> := {};
    while todo != {}
      invariant todo !! done && todo + done == dest.Keys
      invariant result.Valid() && result.ruleViolations == old(result.ruleViolations)
      invariant result.View() == old(result.View()).(unexpected := Sum(done, UnexpectedAt(expected, dest)))
      invariant NoneIsEmpty(dest) && old(result.Precise()) ==> result.Precise()
    {
      var key :| key in todo;
      SumGrows(done, UnexpectedAt(expected, dest), key);
      if key !in expected {
        CompareUnknown(result, key, |dest[key]|);
      }
      todo := todo - {key};
      done := done + {key};
    }
    assert done == dest.Keys;
  }

  // Nothing is off in a table: its rows are as expected, and every rule of a column holds.
  ghost predicate NothingIsOff(columns: seq<string>, rules: map<string, seq<Rule>>, sides: Sides)
    requires Fit(columns, sides.source) && Fit(columns, sides.dest)
  {
    AsExpected(sides.expected, sides.dest) && forall k :: !IsBroken(columns, rules, sides, k, |columns|)
  }

  // What the counters and the broken rules say together.
  lemma NoGapAtAll(
    columns: seq<string>, rules: map<string, seq<Rule>>, sides: Sides, c: Counts, violations: Violations)
    requires Fit(columns, sides.source) && Fit(columns, sides.dest)
    requires c == CountsOf(sides.expected, sides.source, sides.dest)
    requires violations == AfterColumns(map[], columns, |columns|, rules, sides)
    ensures forall k :: k in violations <==> IsBroken(columns, rules, sides, k, |columns|)
    ensures c.missing == 0 && c.leaked == 0 && c.unexpected == 0 && c.duplicated == 0 && violations == map[]
            <==> NothingIsOff(columns, rules, sides)
  {
    hide Fit, IsBroken, AsExpected, CountsOf, AfterColumns;
    NoGapIsAsExpected(sides.expected, sides.source, sides.dest);
    forall k
      ensures k in violations <==> IsBroken(columns, rules, sides, k, |columns|)
    {
      AfterTheColumns(map[], columns, |columns|, rules, sides, k);
    }
    if violations != map[] {
      var k :| k in violations;
    }
  }

  // Counts what is off in a table, the keys taken in any order; a rule that is not known is an error.
  // No gap is left exactly when nothing is off, and gaps are shown exactly when there are some.
  method CompareTable(columns: seq<string>, rules: map<string, seq<Rule>>, sides: Sides)
    returns (result: Result<TableResult, string>)
    requires Fit(columns, sides.source) && Fit(columns, sides.dest)
    ensures result.Success? <==> forall i :: 0 <= i < |columns| ==> AllKnown(RulesOf(rules, columns[i]))
    ensures result.Success? ==>
              var r := result.value;
              && fresh(r) && r.Valid() && r.View() == CountsOf(sides.expected, sides.source, sides.dest)
              && CountsItsRows(r.View(), sides) && TellsItsKind(r.View(), sides)
              && r.ruleViolations == AfterColumns(map[], columns, |columns|, rules, sides)
              && (forall k :: k in r.ruleViolations <==> IsBroken(columns, rules, sides, k, |columns|))
              && (r.NoGap() <==> NothingIsOff(columns, rules, sides))
              && (NoneIsEmpty(sides.dest) ==> (r.samples == [] <==> r.NoGap()))
  {
    hide AllKnown, IsBroken, Fit, NothingIsOff, NoneIsEmpty, AfterColumns, CountsItsRows, TellsItsKind, CountsOf;
    var r := new TableResult();
    var known := CompareRows(r, columns, rules, sides);
    if !known {
      return Failure("no check knows this rule");
    }
    NoGapAtAll(columns, rules, sides, r.View(), r.ruleViolations);
    CountersCountTheirRows(sides);
    EachCounterTellsItsKind(r.View(), sides);
    return Success(r);
  }

  method CompareRows(r: TableResult, columns: seq<string>, rules: map<string, seq<Rule>>, sides: Sides)
    returns (known: bool)
    requires Fit(columns, sides.source) && Fit(columns, sides.dest)
    requires r.Valid() && r.View() == Counts(0, 0, 0, 0, 0, 0, 0) && r.ruleViolations == map[] && r.told == []
    modifies r
    ensures r.Valid() && r.View() == CountsOf(sides.expected, sides.source, sides.dest)
    ensures known <==> forall i :: 0 <= i < |columns| ==> AllKnown(RulesOf(rules, columns[i]))
    ensures known ==> r.ruleViolations == AfterColumns(map[], columns, |columns|, rules, sides)
    ensures NoneIsEmpty(sides.dest) ==> r.Precise()
  {
    hide AllKnown, AfterColumns, Fit, NoneIsEmpty, ExpectedAt, MissingAt, LeakedAt, DuplicatedAt, UnexpectedAt, RowsAt;
    r.sourceRows := CountRows(sides.source);
    r.destinationRows := CountRows(sides.dest);
    CompareExpected(r, sides.expected, sides.dest);
    CompareUnexpected(r, sides.expected, sides.dest);
    known := CheckRules(r, columns, rules, sides);
  }
}
