/**
 * The scorer: severity-weighted deductions from 100, floored at 0
 * (packages/shared/src/complianceUtils.ts, copied in packages/figma-plugin/src/code.ts).
 */
module Scoring {
  import opened Violations

  /** Points one violation of severity `s` costs. */
  function Deduction(s: Severity): nat {
    match s
    case Error => 15
    case Warning => 8
    case Info => 3
  }

  /** The running `totalDeduction` after the violations `vs`, in order. */
  function TotalDeduction(vs: seq<Violation>): nat {
    if vs == [] then 0 else TotalDeduction(vs[..|vs| - 1]) + Deduction(vs[|vs| - 1].severity)
  }

  /** `calculateComplianceScore(violations)` */
  function ComplianceScore(vs: seq<Violation>): int {
    if |vs| == 0 then 100
    else if 100 - TotalDeduction(vs) < 0 then 0
    else 100 - TotalDeduction(vs)
  }

  /** How many of `vs` have severity `s`. */
  function CountSeverity(vs: seq<Violation>, s: Severity): nat {
    if vs == [] then 0 else CountSeverity(vs[1..], s) + (if vs[0].severity == s then 1 else 0)
  }

  /** `calculateComplianceScore`: a loop summing the deductions, then `Math.max(0, 100 - total)`. */
  method CalculateComplianceScore(violations: seq<Violation>) returns (score: int)
    ensures score == ComplianceScore(violations)
  {
    if |violations| == 0 {
      return 100;
    }
    var totalDeduction := 0;
    var i := 0;
    while i < |violations|
      invariant 0 <= i <= |violations|
      invariant totalDeduction == TotalDeduction(violations[..i])
    {
      assert violations[..i + 1][..i] == violations[..i];
      match violations[i].severity {
        case Error => totalDeduction := totalDeduction + 15;
        case Warning => totalDeduction := totalDeduction + 8;
        case Info => totalDeduction := totalDeduction + 3;
      }
      i := i + 1;
    }
    assert violations[..i] == violations;
    score := if 100 - totalDeduction < 0 then 0 else 100 - totalDeduction;
  }

  /** Deductions add up over a concatenation. */
  lemma {:induction false} TotalDeductionAppend(vs: seq<Violation>, ws: seq<Violation>)
    ensures TotalDeduction(vs + ws) == TotalDeduction(vs) + TotalDeduction(ws)
  {
    if ws == [] {
      assert vs + ws == vs;
    } else {
      var n := |ws| - 1;
      TotalDeductionAppend(vs, ws[..n]);
      assert (vs + ws)[..|vs + ws| - 1] == vs + ws[..n];
      assert (vs + ws)[|vs + ws| - 1] == ws[n];
    }
  }

  /** The total is 15 per error, 8 per warning and 3 per info. */
  lemma {:induction false} TotalDeductionByCounts(vs: seq<Violation>)
    ensures TotalDeduction(vs) ==
      15 * CountSeverity(vs, Error) + 8 * CountSeverity(vs, Warning) + 3 * CountSeverity(vs, Info)
  {
    if vs != [] {
      TotalDeductionByCounts(vs[1..]);
      TotalDeductionAppend([vs[0]], vs[1..]);
      assert [vs[0]] + vs[1..] == vs;
      assert TotalDeduction([vs[0]]) == Deduction(vs[0].severity);
    }
  }

  /**
   * The score is 100 for no violations and otherwise
   * `max(0, 100 - 15 * errors - 8 * warnings - 3 * infos)`; it always lies in [0, 100].
   */
  lemma ComplianceScoreFormula(vs: seq<Violation>)
    ensures var d := 15 * CountSeverity(vs, Error) + 8 * CountSeverity(vs, Warning) + 3 * CountSeverity(vs, Info);
      ComplianceScore(vs) == if vs == [] then 100 else if 100 - d < 0 then 0 else 100 - d
    ensures 0 <= ComplianceScore(vs) <= 100
  {
    TotalDeductionByCounts(vs);
  }

  /** Appending violations never raises the score. */
  lemma ScoreNeverRises(vs: seq<Violation>, ws: seq<Violation>)
    ensures ComplianceScore(vs + ws) <= ComplianceScore(vs)
  {
    TotalDeductionAppend(vs, ws);
    if vs == [] {
      assert vs + ws == ws;
    }
  }

  /** Any violation costs points: a non-empty list scores below 100. */
  lemma {:induction false} NonEmptyScoresBelowHundred(vs: seq<Violation>)
    requires vs != []
    ensures ComplianceScore(vs) < 100
  {
    TotalDeductionAppend(vs[..|vs| - 1], [vs[|vs| - 1]]);
    assert vs[..|vs| - 1] + [vs[|vs| - 1]] == vs;
  }
}
