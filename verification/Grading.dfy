/** Folding a rule set over a student's results into one final grade, over the reals, and writing
    the grades of a class. */
module Grading {
  import opened Wrappers
  import opened Collections

  type ExamId = nat
  type StudentId = nat

  datatype Kind = Single | BestOf | Average | Attendance | Assignments | OtherKind(name: string)

  datatype Rule = Rule(kind: Kind, weight: real, exam: Option<ExamId>, exams: seq<ExamId>)

  datatype ExamScore = ExamScore(total: Option<real>, max: real)

  datatype Inputs = Inputs(scores: map<ExamId, ExamScore>, assignmentAvg: real, hasAssignments: bool, attendance: real)

  datatype RulesError = InvalidInput | InvalidRules

  // ---- Validation ------------------------------------------------------------------------------------

  function Weights(rules: seq<Rule>): real {
    if rules == [] then 0.0 else Weights(rules[..|rules| - 1]) + rules[|rules| - 1].weight
  }

  function Distance(a: real, b: real): real { if a < b then b - a else a - b }

  /** Known kinds only, and weights that total 100 give or take 0.01. */
  predicate Acceptable(rules: seq<Rule>) {
    (forall r :: r in rules ==> !r.kind.OtherKind?) && Distance(Weights(rules), 100.0) <= 0.01
  }

  method ValidateRules(rules: seq<Rule>) returns (r: Result<(), RulesError>)
    ensures r.Success? <==> Acceptable(rules)
    ensures r == Failure(InvalidInput) <==> exists k :: 0 <= k < |rules| && rules[k].kind.OtherKind?
    ensures r == Failure(InvalidRules) ==> Weights(rules) < 99.99 || Weights(rules) > 100.01
    ensures r.Success? ==> 99.99 <= Weights(rules) <= 100.01
  {
    var total := 0.0;
    for i := 0 to |rules|
      invariant total == Weights(rules[..i])
      invariant forall k :: 0 <= k < i ==> !rules[k].kind.OtherKind?
    {
      assert rules[..i + 1][..i] == rules[..i];
      if rules[i].kind.OtherKind? {
        return Failure(InvalidInput);
      }
      total := total + rules[i].weight;
    }
    assert rules[..|rules|] == rules;
    if Distance(total, 100.0) > 0.01 {
      return Failure(InvalidRules);
    }
    return Success(());
  }

  // ---- The fold ----------------------------------------------------------------------------------------

  /** Half away from zero. */
  function Round(x: real): int { if x >= 0.0 then (x + 0.5).Floor else -((0.5 - x).Floor) }

  function ExamPercent(s: ExamScore): real {
    if s.total.None? || s.max == 0.0 then 0.0 else s.total.value / s.max * 100.0
  }

  /** An exam without a score counts nothing. */
  function Percent(inputs: Inputs, e: ExamId): real {
    if e in inputs.scores then ExamPercent(inputs.scores[e]) else 0.0
  }

  function Best(inputs: Inputs, exams: seq<ExamId>): real {
    if exams == [] then 0.0
    else
      var best, p := Best(inputs, exams[..|exams| - 1]), Percent(inputs, exams[|exams| - 1]);
      if p > best then p else best
  }

  function Sum(inputs: Inputs, exams: seq<ExamId>): real {
    if exams == [] then 0.0 else Sum(inputs, exams[..|exams| - 1]) + Percent(inputs, exams[|exams| - 1])
  }

  /** What one rule measures, out of 100. */
  function Measure(inputs: Inputs, r: Rule): real {
    match r.kind
    case Single => if r.exam.Some? then Percent(inputs, r.exam.value) else 0.0
    case BestOf => Best(inputs, r.exams)
    case Average => if r.exams == [] then 0.0 else Sum(inputs, r.exams) / |r.exams| as real
    case Attendance => inputs.attendance
    case Assignments => if inputs.hasAssignments then inputs.assignmentAvg else 0.0
    case OtherKind(_) => 0.0
  }

  function Weighted(measure: real, weight: real): real { measure * weight / 100.0 }

  function Points(inputs: Inputs, r: Rule): real { Weighted(Measure(inputs, r), r.weight) }

  function Total(inputs: Inputs, rules: seq<Rule>): real {
    if rules == [] then 0.0 else Total(inputs, rules[..|rules| - 1]) + Points(inputs, rules[|rules| - 1])
  }

  function Grade(inputs: Inputs, rules: seq<Rule>): int { Round(Total(inputs, rules)) }

  method BestOfExams(inputs: Inputs, exams: seq<ExamId>) returns (best: real)
    ensures best == Best(inputs, exams)
  {
    best := 0.0;
    for i := 0 to |exams|
      invariant best == Best(inputs, exams[..i])
    {
      assert exams[..i + 1][..i] == exams[..i];
      var p := Percent(inputs, exams[i]);
      if p > best {
        best := p;
      }
    }
    assert exams[..|exams|] == exams;
  }

  method SumOfExams(inputs: Inputs, exams: seq<ExamId>) returns (sum: real)
    ensures sum == Sum(inputs, exams)
  {
    sum := 0.0;
    for i := 0 to |exams|
      invariant sum == Sum(inputs, exams[..i])
    {
      assert exams[..i + 1][..i] == exams[..i];
      sum := sum + Percent(inputs, exams[i]);
    }
    assert exams[..|exams|] == exams;
  }

  /** What one rule measures, in the branches of the program; a branch that adds nothing measures
      nothing. */
  method MeasureRule(inputs: Inputs, rule: Rule) returns (measure: real)
    ensures measure == Measure(inputs, rule)
  {
    measure := 0.0;
    match rule.kind
    case Single =>
      if rule.exam.Some? {
        measure := Percent(inputs, rule.exam.value);
      }
    case BestOf =>
      measure := BestOfExams(inputs, rule.exams);
    case Average =>
      if |rule.exams| > 0 {
        var sum := SumOfExams(inputs, rule.exams);
        measure := sum / |rule.exams| as real;
      }
    case Attendance => measure := inputs.attendance;
    case Assignments =>
      if inputs.hasAssignments {
        measure := inputs.assignmentAvg;
      }
    case OtherKind(_) =>
  }

  method FinalGrade(inputs: Inputs, rules: seq<Rule>) returns (grade: int)
    ensures grade == Grade(inputs, rules)
  {
    var total := 0.0;
    for i := 0 to |rules|
      invariant total == Total(inputs, rules[..i])
    {
      assert rules[..i + 1][..i] == rules[..i];
      var measure := MeasureRule(inputs, rules[i]);
      total := total + Weighted(measure, rules[i].weight);
    }
    assert rules[..|rules|] == rules;
    return Round(total);
  }

  // ---- What a rule measures, in other words --------------------------------------------------------------

  /** The nearest integer, and of two as near the one further from zero. */
  lemma RoundIsNearest(x: real)
    ensures -0.5 <= Round(x) as real - x <= 0.5
    ensures Round(x) as real - x == 0.5 ==> x > 0.0
    ensures Round(x) as real - x == -0.5 ==> x < 0.0
  {
  }

  /** A score's percentage of its maximum; nothing where there is no score or no maximum. */
  lemma PercentIs(inputs: Inputs, e: ExamId)
    ensures var s := if e in inputs.scores then inputs.scores[e] else ExamScore(None, 0.0);
      if s.total.Some? && s.max != 0.0 then Percent(inputs, e) * s.max == s.total.value * 100.0 else Percent(inputs, e) == 0.0
  {
  }

  /** The highest of the percentages, or nothing when none is above it. */
  lemma {:induction false} BestIsHighest(inputs: Inputs, exams: seq<ExamId>)
    ensures Best(inputs, exams) >= 0.0
    ensures forall k :: 0 <= k < |exams| ==> Percent(inputs, exams[k]) <= Best(inputs, exams)
    ensures Best(inputs, exams) == 0.0 || exists k :: 0 <= k < |exams| && Percent(inputs, exams[k]) == Best(inputs, exams)
    decreases |exams|
  {
    if exams != [] {
      var front := exams[..|exams| - 1];
      BestIsHighest(inputs, front);
      if k :| 0 <= k < |front| && Percent(inputs, front[k]) == Best(inputs, front) {
        assert exams[k] == front[k];
      }
      assert forall k :: 0 <= k < |front| ==> exams[k] == front[k];
    }
  }

  lemma {:induction false} SumJoins(inputs: Inputs, a: seq<ExamId>, b: seq<ExamId>)
    ensures Sum(inputs, a + b) == Sum(inputs, a) + Sum(inputs, b)
    ensures forall e :: Sum(inputs, [e]) == Percent(inputs, e)
    decreases |b|
  {
    if b == [] {
      assert a + b == a;
    } else {
      SumJoins(inputs, a, b[..|b| - 1]);
      assert (a + b)[..|a + b| - 1] == a + b[..|b| - 1];
    }
  }

  lemma Quotient(sum: real, n: nat)
    requires n > 0
    ensures sum / n as real * n as real == sum
  {
  }

  /** One exam's percentage, the highest of several, their average, the attendance, or the average of
      the assignments where there are any. */
  lemma MeasureIs(inputs: Inputs, r: Rule)
    ensures var m := Measure(inputs, r);
      && (r.kind == Single ==> m == if r.exam.Some? then Percent(inputs, r.exam.value) else 0.0)
      && (r.kind == BestOf && r.exams != [] ==> forall k :: 0 <= k < |r.exams| ==> m >= Percent(inputs, r.exams[k]))
      && (r.kind == BestOf ==> m == 0.0 || exists k :: 0 <= k < |r.exams| && m == Percent(inputs, r.exams[k]))
      && (r.kind == Average ==> m * |r.exams| as real == Sum(inputs, r.exams))
      && (r.kind == Attendance ==> m == inputs.attendance)
      && (r.kind == Assignments ==> m == if inputs.hasAssignments then inputs.assignmentAvg else 0.0)
  {
    BestIsHighest(inputs, r.exams);
    if r.exams != [] {
      Quotient(Sum(inputs, r.exams), |r.exams|);
    }
  }

  /** Every rule adds its measure by its weight, a hundredth for each point. */
  lemma RuleAdds(inputs: Inputs, rules: seq<Rule>, r: Rule)
    ensures (Total(inputs, rules + [r]) - Total(inputs, rules)) * 100.0 == Measure(inputs, r) * r.weight
    ensures Total(inputs, []) == 0.0
  {
    assert (rules + [r])[..|rules|] == rules;
  }

  // ---- Always between 0 and 100 --------------------------------------------------------------------------

  ghost predicate InRange(inputs: Inputs) {
    && (forall e :: 0.0 <= Percent(inputs, e) <= 100.0)
    && 0.0 <= inputs.assignmentAvg <= 100.0
    && 0.0 <= inputs.attendance <= 100.0
  }

  ghost predicate Positive(rules: seq<Rule>) {
    forall k :: 0 <= k < |rules| ==> rules[k].weight > 0.0
  }

  lemma WeightedMonotone(a: real, b: real, w: real)
    requires a <= b && w >= 0.0
    ensures Weighted(a, w) <= Weighted(b, w)
  {
    assert (b - a) * w >= 0.0;
  }

  lemma WeightedInRange(m: real, w: real)
    requires 0.0 <= m <= 100.0 && w >= 0.0
    ensures 0.0 <= Weighted(m, w) <= w
  {
    WeightedMonotone(0.0, m, w);
    WeightedMonotone(m, 100.0, w);
  }

  lemma Quotients(a: real, b: real, n: nat)
    requires a <= b && n > 0
    ensures a / n as real <= b / n as real
  {
    var d := n as real;
    assert a / d == a * (1.0 / d) && b / d == b * (1.0 / d);
    assert (b - a) * (1.0 / d) >= 0.0;
  }

  lemma {:induction false} ExamsInRange(inputs: Inputs, exams: seq<ExamId>)
    requires InRange(inputs)
    ensures 0.0 <= Best(inputs, exams) <= 100.0
    ensures 0.0 <= Sum(inputs, exams) <= 100.0 * |exams| as real
  {
    if exams != [] {
      ExamsInRange(inputs, exams[..|exams| - 1]);
      assert 0.0 <= Percent(inputs, exams[|exams| - 1]) <= 100.0;
    }
  }

  lemma MeasureInRange(inputs: Inputs, r: Rule)
    requires InRange(inputs)
    ensures 0.0 <= Measure(inputs, r) <= 100.0
  {
    ExamsInRange(inputs, r.exams);
    if r.kind == Average && r.exams != [] {
      var d := |r.exams| as real;
      Quotients(0.0, Sum(inputs, r.exams), |r.exams|);
      Quotients(Sum(inputs, r.exams), 100.0 * d, |r.exams|);
      assert 0.0 / d == 0.0 && 100.0 * d / d == 100.0;
    }
  }

  lemma PointsInRange(inputs: Inputs, r: Rule)
    requires InRange(inputs) && r.weight > 0.0
    ensures 0.0 <= Points(inputs, r) <= r.weight
  {
    MeasureInRange(inputs, r);
    WeightedInRange(Measure(inputs, r), r.weight);
  }

  lemma {:induction false} TotalInRange(inputs: Inputs, rules: seq<Rule>)
    requires InRange(inputs) && Positive(rules)
    ensures 0.0 <= Total(inputs, rules) <= Weights(rules)
  {
    if rules != [] {
      TotalInRange(inputs, rules[..|rules| - 1]);
      PointsInRange(inputs, rules[|rules| - 1]);
    }
  }

  /** The tolerance in the weights never shows: the rounded grade stays within 0 and 100. */
  lemma GradeInRange(inputs: Inputs, rules: seq<Rule>)
    requires InRange(inputs) && Positive(rules) && Acceptable(rules)
    ensures 0 <= Grade(inputs, rules) <= 100
  {
    TotalInRange(inputs, rules);
  }

  lemma {:induction false} FullMarksTotal(inputs: Inputs, rules: seq<Rule>)
    requires forall k :: 0 <= k < |rules| ==> Measure(inputs, rules[k]) == 100.0
    ensures Total(inputs, rules) == Weights(rules)
  {
    if rules != [] {
      FullMarksTotal(inputs, rules[..|rules| - 1]);
    }
  }

  /** When every rule measures 100 the grade is exactly 100. */
  lemma FullMarksGrade(inputs: Inputs, rules: seq<Rule>)
    requires Acceptable(rules) && forall k :: 0 <= k < |rules| ==> Measure(inputs, rules[k]) == 100.0
    ensures Grade(inputs, rules) == 100
  {
    FullMarksTotal(inputs, rules);
  }

  // ---- Better results, better grade ------------------------------------------------------------------------

  ghost predicate NoWorse(a: Inputs, b: Inputs) {
    && (forall e :: Percent(a, e) <= Percent(b, e))
    && a.attendance <= b.attendance
    && (if a.hasAssignments then b.hasAssignments && a.assignmentAvg <= b.assignmentAvg
        else b.hasAssignments ==> b.assignmentAvg >= 0.0)
  }

  lemma {:induction false} ExamsMonotone(a: Inputs, b: Inputs, exams: seq<ExamId>)
    requires NoWorse(a, b)
    ensures Best(a, exams) <= Best(b, exams) && Sum(a, exams) <= Sum(b, exams)
  {
    if exams != [] {
      ExamsMonotone(a, b, exams[..|exams| - 1]);
      assert Percent(a, exams[|exams| - 1]) <= Percent(b, exams[|exams| - 1]);
    }
  }

  lemma MeasureMonotone(a: Inputs, b: Inputs, r: Rule)
    requires NoWorse(a, b)
    ensures Measure(a, r) <= Measure(b, r)
  {
    ExamsMonotone(a, b, r.exams);
    if r.kind == Average && r.exams != [] {
      Quotients(Sum(a, r.exams), Sum(b, r.exams), |r.exams|);
    }
  }

  lemma PointsMonotone(a: Inputs, b: Inputs, r: Rule)
    requires NoWorse(a, b) && r.weight > 0.0
    ensures Points(a, r) <= Points(b, r)
  {
    MeasureMonotone(a, b, r);
    WeightedMonotone(Measure(a, r), Measure(b, r), r.weight);
  }

  lemma {:induction false} TotalMonotone(a: Inputs, b: Inputs, rules: seq<Rule>)
    requires NoWorse(a, b) && Positive(rules)
    ensures Total(a, rules) <= Total(b, rules)
  {
    if rules != [] {
      TotalMonotone(a, b, rules[..|rules| - 1]);
      PointsMonotone(a, b, rules[|rules| - 1]);
    }
  }

  /** Results that are nowhere worse never lower the grade. */
  lemma GradeMonotone(a: Inputs, b: Inputs, rules: seq<Rule>)
    requires NoWorse(a, b) && Positive(rules)
    ensures Grade(a, rules) <= Grade(b, rules)
  {
    TotalMonotone(a, b, rules);
  }

  // ---- The order of the rules ---------------------------------------------------------------------------------

  lemma WithoutOfFront(rules: seq<Rule>, i: nat)
    requires i < |rules| - 1
    ensures var k := |rules| - 1;
      rules[..i] + rules[i + 1..] == rules[..k][..i] + rules[..k][i + 1..] + [rules[k]]
  {
    var k := |rules| - 1;
    assert rules[i + 1..] == rules[..k][i + 1..] + [rules[k]];
  }

  lemma TotalOfLast(inputs: Inputs, front: seq<Rule>, r: Rule)
    ensures Total(inputs, front + [r]) == Total(inputs, front) + Points(inputs, r)
  {
    assert (front + [r])[..|front|] == front;
  }

  lemma {:induction false} TotalWithout(inputs: Inputs, rules: seq<Rule>, i: nat)
    requires i < |rules|
    ensures Total(inputs, rules) == Total(inputs, rules[..i] + rules[i + 1..]) + Points(inputs, rules[i])
    decreases |rules|
  {
    var k := |rules| - 1;
    if i == k {
      assert rules[..i] + rules[i + 1..] == rules[..k];
    } else {
      TotalWithout(inputs, rules[..k], i);
      WithoutOfFront(rules, i);
      TotalOfLast(inputs, rules[..k][..i] + rules[..k][i + 1..], rules[k]);
    }
  }

  lemma FindLast(rules: seq<Rule>, permuted: seq<Rule>) returns (i: nat)
    requires rules != [] && multiset(rules) == multiset(permuted)
    ensures i < |permuted| && permuted[i] == rules[|rules| - 1]
    ensures multiset(rules[..|rules| - 1]) == multiset(permuted[..i] + permuted[i + 1..])
  {
    var k := |rules| - 1;
    assert rules == rules[..k] + [rules[k]];
    assert rules[k] in multiset(permuted);
    i :| i < |permuted| && permuted[i] == rules[k];
    var others := permuted[..i] + permuted[i + 1..];
    assert permuted == permuted[..i] + [permuted[i]] + permuted[i + 1..];
    assert multiset(permuted) == multiset(others) + multiset{permuted[i]};
    assert multiset(rules) == multiset(rules[..k]) + multiset{rules[k]};
    assert multiset(others) == multiset(permuted) - multiset{rules[k]} == multiset(rules[..k]);
  }

  lemma {:induction false} TotalIgnoresOrder(inputs: Inputs, rules: seq<Rule>, permuted: seq<Rule>)
    requires multiset(rules) == multiset(permuted)
    ensures Total(inputs, rules) == Total(inputs, permuted)
    decreases |rules|
  {
    if rules == [] {
      assert |multiset(permuted)| == 0;
    } else {
      var i := FindLast(rules, permuted);
      TotalWithout(inputs, permuted, i);
      TotalIgnoresOrder(inputs, rules[..|rules| - 1], permuted[..i] + permuted[i + 1..]);
    }
  }

  lemma OrderOfRulesIsIrrelevant(inputs: Inputs, rules: seq<Rule>, permuted: seq<Rule>)
    requires multiset(rules) == multiset(permuted)
    ensures Grade(inputs, rules) == Grade(inputs, permuted)
  {
    TotalIgnoresOrder(inputs, rules, permuted);
  }

  // ---- Only the exams the rules name --------------------------------------------------------------------------

  function AddId(ids: seq<ExamId>, e: ExamId): seq<ExamId> { if e in ids then ids else ids + [e] }

  function AddIds(ids: seq<ExamId>, more: seq<ExamId>): seq<ExamId> {
    if more == [] then ids else AddId(AddIds(ids, more[..|more| - 1]), more[|more| - 1])
  }

  /** The exams the rules name, each once, in the order they are first named. */
  function NamedExams(rules: seq<Rule>): seq<ExamId> {
    if rules == [] then []
    else
      var r := rules[|rules| - 1];
      var before := NamedExams(rules[..|rules| - 1]);
      AddIds(if r.exam.Some? then AddId(before, r.exam.value) else before, r.exams)
  }

  lemma {:induction false} AddedIds(ids: seq<ExamId>, more: seq<ExamId>)
    requires NoRepeats(ids)
    ensures NoRepeats(AddIds(ids, more))
    ensures forall e :: e in AddIds(ids, more) <==> e in ids || e in more
    decreases |more|
  {
    if more != [] {
      AddedIds(ids, more[..|more| - 1]);
      assert more == more[..|more| - 1] + [more[|more| - 1]];
    }
  }

  ghost predicate Names(r: Rule, e: ExamId) { r.exam == Some(e) || e in r.exams }

  ghost predicate SomeNames(rules: seq<Rule>, e: ExamId) { exists r :: r in rules && Names(r, e) }

  lemma OneMoreNames(rules: seq<Rule>, r: Rule, e: ExamId)
    ensures SomeNames(rules + [r], e) <==> SomeNames(rules, e) || Names(r, e)
  {
    assert r in rules + [r];
  }

  lemma {:induction false} NamedIff(rules: seq<Rule>, e: ExamId)
    ensures NoRepeats(NamedExams(rules))
    ensures e in NamedExams(rules) <==> SomeNames(rules, e)
    decreases |rules|
  {
    if rules != [] {
      var front, r := rules[..|rules| - 1], rules[|rules| - 1];
      NamedIff(front, e);
      OneMoreNames(front, r, e);
      assert rules == front + [r];
      var before := NamedExams(front);
      AddedIds(if r.exam.Some? then AddId(before, r.exam.value) else before, r.exams);
    }
  }

  method RuleExamIDs(rules: seq<Rule>) returns (ids: seq<ExamId>)
    ensures ids == NamedExams(rules)
  {
    var seen: set<ExamId> := {};
    ids := [];
    for i := 0 to |rules|
      invariant ids == NamedExams(rules[..i]) && forall e :: e in seen <==> e in ids
    {
      assert rules[..i + 1][..i] == rules[..i];
      if rules[i].exam.Some? && rules[i].exam.value !in seen {
        seen := seen + {rules[i].exam.value};
        ids := ids + [rules[i].exam.value];
      }
      var exams := rules[i].exams;
      ghost var before := ids;
      for j := 0 to |exams|
        invariant ids == AddIds(before, exams[..j]) && forall e :: e in seen <==> e in ids
      {
        assert exams[..j + 1][..j] == exams[..j];
        if exams[j] !in seen {
          seen := seen + {exams[j]};
          ids := ids + [exams[j]];
        }
      }
      assert exams[..|exams|] == exams;
    }
    assert rules[..|rules|] == rules;
  }

  /** All the exams the rules name, one after the other, repeats included. */
  function Mentions(rules: seq<Rule>): seq<ExamId> {
    if rules == [] then []
    else
      var r := rules[|rules| - 1];
      Mentions(rules[..|rules| - 1]) + (if r.exam.Some? then [r.exam.value] else []) + r.exams
  }

  lemma {:induction false} AddedOneByOne(ids: seq<ExamId>, some: seq<ExamId>, more: seq<ExamId>)
    ensures AddIds(ids, some + more) == AddIds(AddIds(ids, some), more)
    decreases |more|
  {
    if more == [] {
      assert some + more == some;
    } else {
      AddedOneByOne(ids, some, more[..|more| - 1]);
      assert (some + more)[..|some + more| - 1] == some + more[..|more| - 1];
    }
  }

  lemma {:induction false} NamedAreMentioned(rules: seq<Rule>)
    ensures NamedExams(rules) == AddIds([], Mentions(rules))
    decreases |rules|
  {
    if rules != [] {
      var front, r := rules[..|rules| - 1], rules[|rules| - 1];
      var own := if r.exam.Some? then [r.exam.value] else [];
      NamedAreMentioned(front);
      AddedOneByOne([], Mentions(front) + own, r.exams);
      AddedOneByOne([], Mentions(front), own);
      assert own != [] ==> own[..0] == [];
    }
  }

  lemma {:induction false} AddedAre(more: seq<ExamId>, e: ExamId)
    ensures e in AddIds([], more) <==> e in more
    decreases |more|
  {
    if more != [] {
      AddedAre(more[..|more| - 1], e);
    }
  }

  ghost predicate FirstMentionBefore(more: seq<ExamId>, d: ExamId, e: ExamId) {
    exists m :: 0 <= m < |more| && more[m] == d && forall n :: 0 <= n <= m ==> more[n] != e
  }

  lemma {:induction false} AddedInOrder(more: seq<ExamId>, i: nat, j: nat)
    requires i < j < |AddIds([], more)|
    ensures FirstMentionBefore(more, AddIds([], more)[i], AddIds([], more)[j])
    decreases |more|
  {
    var front, before := more[..|more| - 1], AddIds([], more[..|more| - 1]);
    if j < |before| {
      AddedInOrder(front, i, j);
      var m :| 0 <= m < |front| && front[m] == before[i] && forall n :: 0 <= n <= m ==> front[n] != before[j];
      assert more[m] == before[i];
    } else {
      AddedAre(front, before[i]);
      AddedAre(front, more[|more| - 1]);
      var m :| 0 <= m < |front| && front[m] == before[i];
      assert more[m] == before[i];
    }
  }

  /** The exams come in the order in which the rules first name them. */
  lemma NamedInOrder(rules: seq<Rule>, i: nat, j: nat)
    requires i < j < |NamedExams(rules)|
    ensures FirstMentionBefore(Mentions(rules), NamedExams(rules)[i], NamedExams(rules)[j])
  {
    NamedAreMentioned(rules);
    AddedInOrder(Mentions(rules), i, j);
  }

  /** The inputs with only some of the scores read. */
  function Restricted(inputs: Inputs, ids: seq<ExamId>): Inputs {
    inputs.(scores := map e | e in inputs.scores && e in ids :: inputs.scores[e])
  }

  lemma {:induction false} ExamsRestricted(inputs: Inputs, ids: seq<ExamId>, exams: seq<ExamId>)
    requires forall e :: e in exams ==> e in ids
    ensures Best(Restricted(inputs, ids), exams) == Best(inputs, exams)
    ensures Sum(Restricted(inputs, ids), exams) == Sum(inputs, exams)
  {
    if exams != [] {
      ExamsRestricted(inputs, ids, exams[..|exams| - 1]);
    }
  }

  lemma {:induction false} TotalRestricted(inputs: Inputs, ids: seq<ExamId>, rules: seq<Rule>)
    requires forall e :: SomeNames(rules, e) ==> e in ids
    ensures Total(Restricted(inputs, ids), rules) == Total(inputs, rules)
    decreases |rules|
  {
    if rules != [] {
      var front, r := rules[..|rules| - 1], rules[|rules| - 1];
      assert rules == front + [r];
      forall e | SomeNames(front, e) || Names(r, e) ensures e in ids {
        OneMoreNames(front, r, e);
      }
      TotalRestricted(inputs, ids, front);
      forall e | e in r.exams ensures e in ids {
        assert Names(r, e);
      }
      ExamsRestricted(inputs, ids, r.exams);
      assert r.exam.Some? ==> Names(r, r.exam.value);
    }
  }

  /** Reading the scores of the named exams is enough: no other score changes the grade. */
  lemma NamedExamsSuffice(inputs: Inputs, rules: seq<Rule>)
    ensures Grade(Restricted(inputs, NamedExams(rules)), rules) == Grade(inputs, rules)
  {
    forall e | SomeNames(rules, e) ensures e in NamedExams(rules) {
      NamedIff(rules, e);
    }
    TotalRestricted(inputs, NamedExams(rules), rules);
  }
}
