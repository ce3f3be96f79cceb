/** abapEnvironmentRunATCCheck: whether the findings of a run fail the step, and the order in which the HTML
    report lists them. */
module AtcResult {

  datatype Finding = Finding(severity: string, message: string, line: string, source: string)
  datatype File = File(key: string, findings: seq<Finding>)
  /** What the ATC run returns. */
  datatype Result = Result(files: seq<File>)

  /** A line of the report. */
  datatype Row = Row(key: string, finding: Finding)

  /** All findings in the order of the result. */
  function Rows(files: seq<File>, n: nat): seq<Row>
    requires n <= |files|
  {
    if n == 0 then [] else Rows(files, n - 1) + FileRows(files[n - 1], |files[n - 1].findings|)
  }

  function FileRows(file: File, n: nat): seq<Row>
    requires n <= |file.findings|
  {
    if n == 0 then [] else FileRows(file, n - 1) + [Row(file.key, file.findings[n - 1])]
  }

  function AllRows(result: Result): seq<Row> {
    Rows(result.files, |result.files|)
  }

  // ---------------------------------------------------------------- severities

  function CheckStepFailing(severity: string, failOnSeverityLevel: string): bool {
    if failOnSeverityLevel == "error" then
      if severity == "error" then true else if severity == "warning" then false else if severity == "info" then false else false
    else if failOnSeverityLevel == "warning" then
      if severity == "error" then true else if severity == "warning" then true else if severity == "info" then false else false
    else if failOnSeverityLevel == "info" then
      if severity == "error" then true else if severity == "warning" then true else if severity == "info" then true else false
    else false
  }

  /** Severities from the most severe down; all unknown ones come last. */
  function Rank(severity: string): (r: nat)
    ensures r < 4
  {
    if severity == "error" then 0 else if severity == "warning" then 1 else if severity == "info" then 2 else 3
  }

  /** A finding fails the step if it is known, the level is known, and it is at least as severe. */
  lemma FailingIsRank(severity: string, level: string)
    ensures CheckStepFailing(severity, level) <==> Rank(severity) <= Rank(level) < 3
  {
  }

  // ---------------------------------------------------------------- the report

  /** The rows of one rank, in their order. */
  function OfRank(rows: seq<Row>, rank: nat): (r: seq<Row>)
    ensures forall i :: 0 <= i < |r| ==> Rank(r[i].finding.severity) == rank
  {
    if rows == [] then []
    else if Rank(rows[|rows| - 1].finding.severity) == rank then OfRank(rows[..|rows| - 1], rank) + [rows[|rows| - 1]]
    else OfRank(rows[..|rows| - 1], rank)
  }

  function Table(rows: seq<Row>): seq<Row> {
    OfRank(rows, 0) + OfRank(rows, 1) + OfRank(rows, 2) + OfRank(rows, 3)
  }

  lemma OfRankSnoc(rows: seq<Row>, row: Row, rank: nat)
    ensures OfRank(rows + [row], rank)
         == if Rank(row.finding.severity) == rank then OfRank(rows, rank) + [row] else OfRank(rows, rank)
  {
    assert (rows + [row])[..|rows|] == rows;
    hide Rank;
  }

  lemma {:induction false} OfRankConcat(a: seq<Row>, b: seq<Row>, rank: nat)
    ensures OfRank(a + b, rank) == OfRank(a, rank) + OfRank(b, rank)
  {
    hide OfRank, Rank;
    if b == [] {
      NoRows(rank);
      assert a + b == a;
    } else {
      var front, last := b[..|b| - 1], b[|b| - 1];
      assert b == front + [last] && a + b == a + front + [last];
      OfRankConcat(a, front, rank);
      OfRankSnoc(a + front, last, rank);
      OfRankSnoc(front, last, rank);
    }
  }

  lemma NoRows(rank: nat)
    ensures OfRank([], rank) == []
  {
  }

  /** Rows of one rank are all kept for that rank, and none for another. */
  lemma {:induction false} OfRankTwice(rows: seq<Row>, rank: nat, kept: nat)
    requires forall i :: 0 <= i < |rows| ==> Rank(rows[i].finding.severity) == kept
    ensures OfRank(rows, rank) == if rank == kept then rows else []
  {
    hide OfRank, Rank;
    if rows == [] {
      NoRows(rank);
    } else {
      var front, last := rows[..|rows| - 1], rows[|rows| - 1];
      assert rows == front + [last];
      OfRankTwice(front, rank, kept);
      OfRankSnoc(front, last, rank);
    }
  }

  /** The report is stable: within a severity, findings keep their order. */
  lemma TableStable(rows: seq<Row>, rank: nat)
    requires rank < 4
    ensures OfRank(Table(rows), rank) == OfRank(rows, rank)
  {
    hide OfRank, Rank;
    var a, b, c, d := OfRank(rows, 0), OfRank(rows, 1), OfRank(rows, 2), OfRank(rows, 3);
    OfRankConcat(a + b + c, d, rank);
    OfRankConcat(a + b, c, rank);
    OfRankConcat(a, b, rank);
    OfRankTwice(a, rank, 0);
    OfRankTwice(b, rank, 1);
    OfRankTwice(c, rank, 2);
    OfRankTwice(d, rank, 3);
  }

  ghost predicate Sorted(rows: seq<Row>) {
    forall i, j :: 0 <= i < j < |rows| ==> Rank(rows[i].finding.severity) <= Rank(rows[j].finding.severity)
  }

  lemma SortedConcat(a: seq<Row>, b: seq<Row>, rank: nat)
    requires Sorted(a) && forall i :: 0 <= i < |a| ==> Rank(a[i].finding.severity) <= rank
    requires forall i :: 0 <= i < |b| ==> Rank(b[i].finding.severity) == rank + 1
    ensures Sorted(a + b) && forall i :: 0 <= i < |a + b| ==> Rank((a + b)[i].finding.severity) <= rank + 1
  {
    hide Rank;
  }

  /** The report lists the more severe findings first. */
  lemma TableSorted(rows: seq<Row>)
    ensures Sorted(Table(rows))
  {
    hide OfRank, Rank;
    var a, b, c, d := OfRank(rows, 0), OfRank(rows, 1), OfRank(rows, 2), OfRank(rows, 3);
    SortedConcat(a, b, 0);
    SortedConcat(a + b, c, 1);
    SortedConcat(a + b + c, d, 2);
  }

  /** The report lists every finding as often as the result does. */
  lemma {:induction false} TableComplete(rows: seq<Row>)
    ensures multiset(Table(rows)) == multiset(rows)
  {
    if rows != [] {
      var front, last := rows[..|rows| - 1], rows[|rows| - 1];
      assert rows == front + [last];
      TableComplete(front);
      OfRankSnoc(front, last, 0);
      OfRankSnoc(front, last, 1);
      OfRankSnoc(front, last, 2);
      OfRankSnoc(front, last, 3);
      hide OfRank, Rank;
    }
  }

  /** The step fails exactly if the first line of the report calls for it. */
  lemma FirstRowDecides(rows: seq<Row>, level: string)
    ensures SomeFailing(rows, level) <==> rows != [] && CheckStepFailing(Table(rows)[0].finding.severity, level)
  {
    TableComplete(rows);
    TableSorted(rows);
    hide Table, Rank, CheckStepFailing;
    var table := Table(rows);
    assert |table| == |rows| by { assert |table| == |multiset(table)| && |rows| == |multiset(rows)|; }
    if SomeFailing(rows, level) {
      var i :| 0 <= i < |rows| && CheckStepFailing(rows[i].finding.severity, level);
      assert rows[i] in multiset(rows);
      assert rows[i] in table;
      var j :| 0 <= j < |table| && table[j] == rows[i];
      FailingIsRank(table[j].finding.severity, level);
      FailingIsRank(table[0].finding.severity, level);
    } else if rows != [] {
      assert table[0] in multiset(table);
      assert table[0] in rows;
    }
  }

  ghost predicate SomeFailing(rows: seq<Row>, level: string) {
    exists i :: 0 <= i < |rows| && CheckStepFailing(rows[i].finding.severity, level)
  }

  // ---------------------------------------------------------------- the loops

  method EvaluateResults(result: Result, failOnSeverityLevel: string) returns (failStep: bool)
    ensures failStep <==> SomeFailing(AllRows(result), failOnSeverityLevel)
  {
    hide CheckStepFailing;
    var files := result.files;
    failStep := false;
    for n := 0 to |files|
      invariant failStep <==> SomeFailing(Rows(files, n), failOnSeverityLevel)
    {
      var findings := files[n].findings;
      assert Rows(files, n) + FileRows(files[n], 0) == Rows(files, n);
      for k := 0 to |findings|
        invariant failStep <==> SomeFailing(Rows(files, n) + FileRows(files[n], k), failOnSeverityLevel)
      {
        SomeFailingSnoc(Rows(files, n) + FileRows(files[n], k), Row(files[n].key, findings[k]), failOnSeverityLevel);
        assert Rows(files, n) + FileRows(files[n], k + 1) == Rows(files, n) + FileRows(files[n], k) + [Row(files[n].key, findings[k])];
        if !failStep {
          failStep := CheckStepFailing(findings[k].severity, failOnSeverityLevel);
        }
      }
    }
  }

  lemma SomeFailingSnoc(rows: seq<Row>, row: Row, level: string)
    ensures SomeFailing(rows + [row], level) <==> SomeFailing(rows, level) || CheckStepFailing(row.finding.severity, level)
  {
    hide CheckStepFailing;
    var all := rows + [row];
    assert all[|rows|] == row;
    assert forall i :: 0 <= i < |rows| ==> all[i] == rows[i];
  }

  method GenerateHTMLDocument(result: Result) returns (table: seq<Row>)
    ensures table == Table(AllRows(result))
  {
    hide OfRank;
    NoRows(0);
    NoRows(1);
    NoRows(2);
    NoRows(3);
    var files := result.files;
    var errors: seq<Row>, warnings: seq<Row>, infos: seq<Row>, others: seq<Row> := [], [], [], [];
    for n := 0 to |files|
      invariant errors == OfRank(Rows(files, n), 0) && warnings == OfRank(Rows(files, n), 1)
      invariant infos == OfRank(Rows(files, n), 2) && others == OfRank(Rows(files, n), 3)
    {
      var findings := files[n].findings;
      ghost var before := Rows(files, n);
      assert before + FileRows(files[n], 0) == before;
      for k := 0 to |findings|
        invariant errors == OfRank(before + FileRows(files[n], k), 0) && warnings == OfRank(before + FileRows(files[n], k), 1)
        invariant infos == OfRank(before + FileRows(files[n], k), 2) && others == OfRank(before + FileRows(files[n], k), 3)
      {
        var severity, row := findings[k].severity, Row(files[n].key, findings[k]);
        ghost var seen := before + FileRows(files[n], k);
        assert before + FileRows(files[n], k + 1) == seen + [row];
        OfRankSnoc(seen, row, 0);
        OfRankSnoc(seen, row, 1);
        OfRankSnoc(seen, row, 2);
        OfRankSnoc(seen, row, 3);
        if severity == "error" {
          errors := errors + [row];
        }
        if severity == "warning" {
          warnings := warnings + [row];
        }
        if severity == "info" {
          infos := infos + [row];
        }
        if severity != "info" && severity != "warning" && severity != "error" {
          others := others + [row];
        }
      }
    }
    table := errors + warnings + infos + others;
  }

  // ---------------------------------------------------------------- severities, word by word

  /** Which findings fail the step at which level. */
  lemma StepFailsMeans(rows: seq<Row>, level: string)
    ensures SomeFailing(rows, level) <==>
      exists i :: 0 <= i < |rows| && (
        || (level == "error" && rows[i].finding.severity == "error")
        || (level == "warning" && rows[i].finding.severity in {"error", "warning"})
        || (level == "info" && rows[i].finding.severity in {"error", "warning", "info"}))
  {
  }

  /** In the report errors precede warnings, warnings precede infos, and these all others. */
  lemma TableInWords(rows: seq<Row>, i: nat, j: nat)
    requires i < j < |Table(rows)|
    ensures var a, b := Table(rows)[i].finding.severity, Table(rows)[j].finding.severity;
            && (b == "error" ==> a == "error")
            && (b == "warning" ==> a in {"error", "warning"})
            && (b == "info" ==> a in {"error", "warning", "info"})
  {
    TableSorted(rows);
    hide Table;
  }

  /** The rows of a file are its findings, one by one. */
  lemma {:induction false} FileRowsAre(file: File, n: nat)
    requires n <= |file.findings|
    ensures FileRows(file, n) == seq(n, i requires 0 <= i < n => Row(file.key, file.findings[i]))
  {
    if n > 0 { FileRowsAre(file, n - 1); }
  }

  /** The rows of a result are those of its files, one file after the other. */
  lemma RowsAre(files: seq<File>, file: File)
    ensures AllRows(Result(files + [file])) == AllRows(Result(files)) + FileRows(file, |file.findings|)
    ensures AllRows(Result([])) == []
  {
    SameRows(files, file, |files|);
  }

  lemma {:induction false} SameRows(files: seq<File>, file: File, n: nat)
    requires n <= |files|
    ensures Rows(files + [file], n) == Rows(files, n)
  {
    if n > 0 { SameRows(files, file, n - 1); }
  }
}
