// The rows of a table on both sides, what is expected of them, and the result of a comparison.
module TableResults {
  import opened Sums

  type Row = seq<string>
  type Rows = map<string, seq<Row>>

  const NULL_TEXT := "\\N"

  datatype Verdict = Kept | Dropped | Undecided(name: string)

  // What is expected of the source rows of one key.
  datatype ExpectedRow = ExpectedRow(occurrences: int, verdict: Verdict, nullColumns: seq<string>)

  // The rules a column may hold.
  datatype Rule = Unchanged | Null | Unique | NotInSourceSet | FollowsParent | Consistent | Other(name: string)

  // The rows of a comparison, by key.
  datatype Sides = Sides(expected: map<string, ExpectedRow>, source: Rows, dest: Rows)

  // A row has a value for each column.
  ghost predicate Fit(columns: seq<string>, rows: Rows) {
    forall key, j :: key in rows && 0 <= j < |rows[key]| ==> |rows[key][j]| == |columns|
  }

  function Got(rows: Rows, key: string): nat {
    if key in rows then |rows[key]| else 0
  }

  // What the result of a comparison counts of rows.
  datatype Counts = Counts(
    sourceRows: int, expectedRows: int, destinationRows: int,
    missing: int, leaked: int, unexpected: int, duplicated: int)

  // How many values break the rules, by column and rule; a rule that is kept is not there.
  type Violations = map<(string, Rule), nat>

  function Plus(violations: Violations, k: (string, Rule), n: nat): Violations {
    if n == 0 then violations
    else violations[k := n + if k in violations then violations[k] else 0]
  }

  ghost function ViolationsAt(violations: Violations): ((string, Rule)) -> int {
    k => if k in violations then violations[k] else 0
  }

  // As many more are counted there, and no others anywhere else.
  lemma PlusCounts(violations: Violations, k: (string, Rule), n: nat)
    ensures ViolationsAt(Plus(violations, k, n))(k) == ViolationsAt(violations)(k) + n
    ensures forall other :: other != k ==>
              ViolationsAt(Plus(violations, k, n))(other) == ViolationsAt(violations)(other)
  {
  }

  const MAX_SAMPLES := 5

  // The first of the gaps that were told.
  function Shown(told: seq<string>): seq<string> {
    if |told| <= MAX_SAMPLES then told else told[..MAX_SAMPLES]
  }

  lemma ShownOneMore(told: seq<string>, text: string)
    ensures Shown(told + [text]) == if |Shown(told)| < MAX_SAMPLES then Shown(told) + [text] else Shown(told)
  {
    if |told| >= MAX_SAMPLES {
      assert (told + [text])[..MAX_SAMPLES] == told[..MAX_SAMPLES];
    }
  }

  class TableResult {
    var sourceRows: int
    var expectedRows: int
    var destinationRows: int
    var missing: int
    var leaked: int
    var unexpected: int
    var duplicated: int
    var ruleViolations: Violations
    var samples: seq<string>

    // All the gaps that were told, of which the samples are the first.
    ghost var told: seq<string>

    function View(): Counts
      reads this
    {
      Counts(sourceRows, expectedRows, destinationRows, missing, leaked, unexpected, duplicated)
    }

    predicate NoGap()
      reads this
    {
      missing == 0 && leaked == 0 && unexpected == 0 && duplicated == 0 && ruleViolations == map[]
    }

    // The samples are the first gaps told, and a gap was told of whatever is counted.
    ghost predicate Valid()
      reads this
    {
      && samples == Shown(told)
      && 0 <= missing && 0 <= leaked && 0 <= unexpected && 0 <= duplicated
      && (forall k :: k in ruleViolations ==> 0 < ruleViolations[k])
      && (told == [] ==> NoGap())
    }

    // Nothing was told but gaps.
    ghost predicate Precise()
      reads this
    {
      NoGap() ==> told == []
    }

    constructor ()
      ensures View() == Counts(0, 0, 0, 0, 0, 0, 0) && ruleViolations == map[] && told == [] && Valid()
    {
      sourceRows, expectedRows, destinationRows := 0, 0, 0;
      missing, leaked, unexpected, duplicated := 0, 0, 0, 0;
      ruleViolations, samples, told := map[], [], [];
    }

    // One more gap is told; the samples stay the first ones.
    method Sample(text: string)
      requires samples == Shown(told)
      modifies this`samples, this`told
      ensures told == old(told) + [text] && samples == Shown(told)
    {
      ShownOneMore(told, text);
      if |samples| < MAX_SAMPLES {
        samples := samples + [text];
      }
      told := told + [text];
    }

    // One more value breaks a rule.
    method Violation(column: string, rule: Rule, text: string)
      requires Valid()
      modifies this`ruleViolations, this`samples, this`told
      ensures Valid() && !NoGap()
      ensures ruleViolations == Plus(old(ruleViolations), (column, rule), 1) && told == old(told) + [text]
    {
      ruleViolations := Plus(ruleViolations, (column, rule), 1);
      assert (column, rule) in ruleViolations;
      Sample(text);
    }

    // The counters and the violations in one total, the violations added up in any order.
    method Gaps() returns (total: int)
      requires Valid()
      ensures total == missing + leaked + unexpected + duplicated
                       + Sum(ruleViolations.Keys, ViolationsAt(ruleViolations))
      ensures total == 0 <==> NoGap()
    {
      total := missing + leaked + unexpected + duplicated;
      var todo := ruleViolations.Keys;
      ghost var done: set<(string, Rule)> := {};
      while todo != {}
        invariant todo !! done && todo + done == ruleViolations.Keys
        invariant total == missing + leaked + unexpected + duplicated + Sum(done, ViolationsAt(ruleViolations))
      {
        var k :| k in todo;
        SumGrows(done, ViolationsAt(ruleViolations), k);
        total := total + ruleViolations[k];
        todo := todo - {k};
        done := done + {k};
      }
      assert done == ruleViolations.Keys;
      NoViolation(ruleViolations);
    }
  }

  lemma NoViolation(violations: Violations)
    requires forall k :: k in violations ==> 0 < violations[k]
    ensures 0 <= Sum(violations.Keys, ViolationsAt(violations))
    ensures Sum(violations.Keys, ViolationsAt(violations)) == 0 <==> violations == map[]
  {
    SumIsNotNegative(violations.Keys, ViolationsAt(violations));
    SumIsZero(violations.Keys, ViolationsAt(violations));
    if violations != map[] {
      var k :| k in violations;
      assert ViolationsAt(violations)(k) != 0;
    }
  }
}
