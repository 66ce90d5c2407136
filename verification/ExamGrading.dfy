/** Scoring an answer set: what the choices earn, what awaits a human, and how the sum compares with
    the exam's total. Scores are reals. */
module ExamGrading {
  import opened Wrappers
  import opened Collections

  type QuestionId = nat

  datatype QuestionType = SingleChoice | TrueFalse | Multiple | ShortAnswer | OtherType(name: string)

  /** The answer key as it decodes. */
  datatype Key = One(n: int) | Many(ns: seq<int>) | Unreadable

  datatype Question = Question(id: QuestionId, kind: QuestionType, correct: Key)

  /** An answer as it decodes. */
  datatype Answer = Number(n: int) | Items(items: seq<Answer>) | Other

  /** An exam's reference to a bank question, with the weight it has there. */
  datatype Ref = Ref(id: QuestionId, score: real)

  /** None awaits a human. */
  type Scores = map<QuestionId, Option<real>>

  // ---- Sets of choices ---------------------------------------------------------------------------------

  predicate SameIntSet(key: seq<int>, given: seq<int>) {
    |key| == |given| && forall i :: 0 <= i < |given| ==> given[i] in key
  }

  method CompareIntSets(key: seq<int>, given: seq<int>) returns (same: bool)
    ensures same == SameIntSet(key, given)
  {
    if |key| != |given| {
      return false;
    }
    var known: set<int> := {};
    for i := 0 to |key|
      invariant forall n :: n in known <==> n in key[..i]
    {
      known := known + {key[i]};
    }
    assert key[..|key|] == key;
    assert forall n :: n in known <==> n in key;
    for i := 0 to |given|
      invariant forall j :: 0 <= j < i ==> given[j] in key
    {
      if given[i] !in known {
        return false;
      }
    }
    return true;
  }

  lemma MatchMeansInside(key: seq<int>, given: seq<int>)
    ensures SameIntSet(key, given) <==> |key| == |given| && Elements(given) <= Elements(key)
  {
    if Elements(given) <= Elements(key) {
      forall i | 0 <= i < |given| ensures given[i] in key {
        assert given[i] in Elements(given);
      }
    }
  }

  /** For any key and any answer, repeats in either included, the comparison is equality of sets
      except on two families: it accepts an answer as long as the key that leaves some of the key's
      choices out, and it refuses the key's own set written with another number of repeats. */
  lemma MatchIsSetEqualityIff(key: seq<int>, given: seq<int>)
    ensures (SameIntSet(key, given) <==> Elements(key) == Elements(given)) <==>
      if |key| == |given| then !(Elements(given) < Elements(key)) else Elements(key) != Elements(given)
    ensures NoRepeats(key) && NoRepeats(given) ==> (SameIntSet(key, given) <==> Elements(key) == Elements(given))
  {
    MatchMeansInside(key, given);
    SizeOfElements(key);
    SizeOfElements(given);
    if NoRepeats(key) && NoRepeats(given) && SameIntSet(key, given) {
      SubsetOfSameSize(Elements(given), Elements(key));
    }
  }

  /** One input of each family: 1,1 passes for 1,2, and against the key 1,1 the right answer 1 is
      refused. */
  lemma WrongMatches()
    ensures SameIntSet([1, 2], [1, 1]) && Elements([1, 2]) != Elements([1, 1])
    ensures !SameIntSet([1, 1], [1]) && Elements([1, 1]) == Elements([1])
  {
    assert 2 in Elements([1, 2]) && 2 !in Elements([1, 1]);
  }

  // ---- Scoring ------------------------------------------------------------------------------------------

  function ToInts(items: seq<Answer>): Option<seq<int>> {
    if items == [] then Some([])
    else
      var last := items[|items| - 1];
      match ToInts(items[..|items| - 1])
      case None => None
      case Some(ns) => if last.Number? then Some(ns + [last.n]) else None
  }

  /** A choice question answered with what its key asks for. */
  predicate Right(q: Question, a: Answer) {
    match q.kind
    case SingleChoice => q.correct.One? && a.Number? && a.n == q.correct.n
    case TrueFalse => q.correct.One? && a.Number? && a.n == q.correct.n
    case Multiple =>
      && q.correct.Many? && a.Items? && ToInts(a.items).Some?
      && SameIntSet(q.correct.ns, ToInts(a.items).value)
    case ShortAnswer => false
    case OtherType(_) => false
  }

  function Weight(weights: map<QuestionId, real>, id: QuestionId): real { if id in weights then weights[id] else 0.0 }

  function ScoreOf(q: Question, weights: map<QuestionId, real>, answers: map<QuestionId, Answer>): Option<real> {
    if q.id !in answers then Some(0.0)
    else if q.kind == ShortAnswer then None
    else if Right(q, answers[q.id]) then Some(Weight(weights, q.id))
    else Some(0.0)
  }

  lemma {:induction false} ToIntsIs(items: seq<Answer>)
    ensures ToInts(items).Some? <==> forall i :: 0 <= i < |items| ==> items[i].Number?
    ensures ToInts(items).Some? ==> |ToInts(items).value| == |items|
    ensures ToInts(items).Some? ==> forall i :: 0 <= i < |items| ==> ToInts(items).value[i] == items[i].n
    decreases |items|
  {
    if items != [] {
      var front := items[..|items| - 1];
      ToIntsIs(front);
      assert forall i :: 0 <= i < |front| ==> items[i] == front[i];
    }
  }

  /** All or nothing: an unanswered question scores zero, an answered short answer awaits a human, a
      choice scores its whole weight when the answer is what the key asks for, and otherwise zero. */
  lemma ScoreIs(q: Question, weights: map<QuestionId, real>, answers: map<QuestionId, Answer>)
    ensures var score := ScoreOf(q, weights, answers);
      if q.id !in answers then score == Some(0.0)
      else match q.kind
        case ShortAnswer => score.None?
        case OtherType(_) => score == Some(0.0)
        case Multiple => score == Some(if ChosenRight(q, answers[q.id]) && q.id in weights then weights[q.id] else 0.0)
        case _ => score == Some(if q.correct.One? && answers[q.id] == Number(q.correct.n) && q.id in weights then weights[q.id] else 0.0)
  {
    if q.id in answers && answers[q.id].Items? {
      ToIntsIs(answers[q.id].items);
    }
  }

  /** The items are numbers, as many as the key has, and each is in the key. */
  predicate ChosenRight(q: Question, a: Answer) {
    && q.correct.Many? && a.Items? && |a.items| == |q.correct.ns|
    && forall i :: 0 <= i < |a.items| ==> a.items[i].Number? && a.items[i].n in q.correct.ns
  }

  function Graded(questions: seq<Question>, weights: map<QuestionId, real>, answers: map<QuestionId, Answer>): Scores {
    if questions == [] then map[]
    else
      var q := questions[|questions| - 1];
      Graded(questions[..|questions| - 1], weights, answers)[q.id := ScoreOf(q, weights, answers)]
  }

  method GradeChoice(correct: Key, a: Answer, weight: real) returns (score: real)
    ensures score == if correct.One? && a.Number? && a.n == correct.n then weight else 0.0
  {
    if !correct.One? { return 0.0; }
    if !a.Number? || a.n != correct.n { return 0.0; }
    return weight;
  }

  method GradeChoiceSet(correct: Key, a: Answer, weight: real) returns (score: real)
    ensures score ==
      if correct.Many? && a.Items? && ToInts(a.items).Some? && SameIntSet(correct.ns, ToInts(a.items).value) then weight else 0.0
  {
    if !correct.Many? || !a.Items? { return 0.0; }
    var given := ToInts(a.items);
    if given.None? { return 0.0; }
    var same := CompareIntSets(correct.ns, given.value);
    return if same then weight else 0.0;
  }

  method AutoGrade(questions: seq<Question>, weights: map<QuestionId, real>, answers: map<QuestionId, Answer>) returns (scores: Scores)
    ensures scores == Graded(questions, weights, answers)
  {
    scores := map[];
    for i := 0 to |questions|
      invariant scores == Graded(questions[..i], weights, answers)
    {
      assert questions[..i + 1][..i] == questions[..i];
      var q := questions[i];
      var score: Option<real> := Some(0.0);
      if q.id in answers {
        var weight := Weight(weights, q.id);
        if q.kind == SingleChoice || q.kind == TrueFalse {
          var s := GradeChoice(q.correct, answers[q.id], weight);
          score := Some(s);
        } else if q.kind == Multiple {
          var s := GradeChoiceSet(q.correct, answers[q.id], weight);
          score := Some(s);
        } else if q.kind == ShortAnswer {
          score := None;
        }
      }
      scores := scores[q.id := score];
    }
    assert questions[..|questions|] == questions;
  }

  // ---- Sums over maps, in any order ------------------------------------------------------------------------

  ghost function Sum(m: map<QuestionId, real>): real {
    if m == map[] then 0.0
    else
      var k :| k in m;
      m[k] + Sum(m - {k})
  }

  lemma {:induction false} SumWithout(m: map<QuestionId, real>, k: QuestionId)
    requires k in m
    ensures Sum(m) == m[k] + Sum(m - {k})
    decreases |m|
  {
    var l :| l in m && Sum(m) == m[l] + Sum(m - {l});
    if l != k {
      SumWithout(m - {l}, k);
      SumWithout(m - {k}, l);
      assert m - {l} - {k} == m - {k} - {l};
    }
  }

  lemma SumWith(m: map<QuestionId, real>, k: QuestionId, v: real)
    ensures Sum(m[k := v]) == v + Sum(m - {k})
  {
    SumWithout(m[k := v], k);
    assert m[k := v] - {k} == m - {k};
  }

  function Value(s: Option<real>): real { if s.Some? then s.value else 0.0 }

  function Values(scores: Scores): map<QuestionId, real> { map k | k in scores :: Value(scores[k]) }

  method TotalOf(scores: Scores) returns (total: real)
    ensures total == Sum(Values(scores))
  {
    total := 0.0;
    var rest := scores;
    while rest != map[]
      invariant total + Sum(Values(rest)) == Sum(Values(scores))
      decreases |rest|
    {
      var k :| k in rest;
      SumWithout(Values(rest), k);
      assert Values(rest) - {k} == Values(rest - {k});
      if rest[k].Some? {
        total := total + rest[k].value;
      }
      rest := rest - {k};
    }
    assert Values(map[]) == map[];
  }

  method HasUngraded(scores: Scores) returns (ungraded: bool)
    ensures ungraded <==> exists k :: k in scores && scores[k].None?
  {
    var rest := scores.Keys;
    while rest != {}
      invariant rest <= scores.Keys
      invariant forall k :: k in scores && k !in rest ==> scores[k].Some?
      decreases |rest|
    {
      var k :| k in rest;
      if scores[k].None? {
        return true;
      }
      rest := rest - {k};
    }
    return false;
  }

  // ---- The exam's weights and total ---------------------------------------------------------------------------

  /** A question referenced twice keeps the last weight. */
  function WeightsOf(refs: seq<Ref>): map<QuestionId, real> {
    if refs == [] then map[] else WeightsOf(refs[..|refs| - 1])[refs[|refs| - 1].id := refs[|refs| - 1].score]
  }

  function TotalWeight(refs: seq<Ref>): real {
    if refs == [] then 0.0 else TotalWeight(refs[..|refs| - 1]) + refs[|refs| - 1].score
  }

  method QuestionWeights(refs: seq<Ref>) returns (ids: seq<QuestionId>, weights: map<QuestionId, real>)
    ensures |ids| == |refs| && forall i :: 0 <= i < |refs| ==> ids[i] == refs[i].id
    ensures weights == WeightsOf(refs)
  {
    ids, weights := [], map[];
    for i := 0 to |refs|
      invariant |ids| == i && forall j :: 0 <= j < i ==> ids[j] == refs[j].id
      invariant weights == WeightsOf(refs[..i])
    {
      assert refs[..i + 1][..i] == refs[..i];
      ids := ids + [refs[i].id];
      weights := weights[refs[i].id := refs[i].score];
    }
    assert refs[..|refs|] == refs;
  }

  method ExamTotal(refs: seq<Ref>) returns (total: real)
    ensures total == TotalWeight(refs)
  {
    total := 0.0;
    for i := 0 to |refs|
      invariant total == TotalWeight(refs[..i])
    {
      assert refs[..i + 1][..i] == refs[..i];
      total := total + refs[i].score;
    }
    assert refs[..|refs|] == refs;
  }

  ghost predicate PositiveRefs(refs: seq<Ref>) { forall i :: 0 <= i < |refs| ==> refs[i].score > 0.0 }

  ghost predicate DistinctRefs(refs: seq<Ref>) { forall i, j :: 0 <= i < j < |refs| ==> refs[i].id != refs[j].id }

  lemma {:induction false} WeightKeys(refs: seq<Ref>, id: QuestionId)
    requires PositiveRefs(refs)
    ensures id in WeightsOf(refs) <==> exists i :: 0 <= i < |refs| && refs[i].id == id
    ensures id in WeightsOf(refs) ==> WeightsOf(refs)[id] > 0.0
    decreases |refs|
  {
    if refs != [] {
      WeightKeys(refs[..|refs| - 1], id);
    }
  }

  /** Of a question's references the last one counts. */
  lemma {:induction false} LastWeightCounts(refs: seq<Ref>, i: nat)
    requires i < |refs| && forall j :: i < j < |refs| ==> refs[j].id != refs[i].id
    ensures refs[i].id in WeightsOf(refs) && WeightsOf(refs)[refs[i].id] == refs[i].score
    decreases |refs|
  {
    if i < |refs| - 1 {
      LastWeightCounts(refs[..|refs| - 1], i);
    }
  }

  /** The weights sum to the exam's total, or to less when a question is referenced twice. */
  lemma {:induction false} WeightsWithinTotal(refs: seq<Ref>)
    requires PositiveRefs(refs)
    ensures Sum(WeightsOf(refs)) <= TotalWeight(refs)
    ensures Sum(WeightsOf(refs)) == TotalWeight(refs) <==> DistinctRefs(refs)
    decreases |refs|
  {
    if refs != [] {
      var k := |refs| - 1;
      var id, before := refs[k].id, WeightsOf(refs[..k]);
      WeightsWithinTotal(refs[..k]);
      SumWith(before, id, refs[k].score);
      WeightKeys(refs[..k], id);
      if id in before {
        SumWithout(before, id);
        var i :| 0 <= i < k && refs[i].id == id;
      } else {
        assert before - {id} == before;
      }
    }
  }

  lemma SameWith(a: map<QuestionId, real>, b: map<QuestionId, real>, k: QuestionId)
    requires k in a && k in b
    ensures a == b <==> a - {k} == b - {k} && a[k] == b[k]
  {
    assert a == (a - {k})[k := a[k]] && b == (b - {k})[k := b[k]];
  }

  lemma Untouched(a: map<QuestionId, real>, k: QuestionId)
    requires k !in a
    ensures a - {k} == a
  {
  }

  lemma SumsCompareWithout(a: map<QuestionId, real>, b: map<QuestionId, real>, k: QuestionId)
    requires k in b && b[k] > 0.0 && (k in a ==> 0.0 <= a[k] <= b[k])
    requires 0.0 <= Sum(a - {k}) <= Sum(b - {k})
    requires Sum(a - {k}) == Sum(b - {k}) <==> a - {k} == b - {k}
    ensures 0.0 <= Sum(a) <= Sum(b)
    ensures Sum(a) == Sum(b) <==> a == b
  {
    SumWithout(b, k);
    if k in a {
      SumWithout(a, k);
      SameWith(a, b, k);
    } else {
      Untouched(a, k);
    }
  }

  /** Pointwise no more, and of non-negative values: no more in sum, and equal only when nothing is
      missing and nothing is less. */
  lemma {:induction false} SumsCompare(a: map<QuestionId, real>, b: map<QuestionId, real>)
    requires a.Keys <= b.Keys
    requires forall k :: k in b ==> b[k] > 0.0
    requires forall k :: k in a ==> 0.0 <= a[k] <= b[k]
    ensures 0.0 <= Sum(a) <= Sum(b)
    ensures Sum(a) == Sum(b) <==> a == b
    decreases |b|
  {
    if k :| k in b {
      SumsCompare(a - {k}, b - {k});
      SumsCompareWithout(a, b, k);
    } else {
      assert a == map[];
    }
  }

  // ---- What a submission earns ------------------------------------------------------------------------------------

  ghost predicate DistinctIds(questions: seq<Question>) {
    forall i, j :: 0 <= i < j < |questions| ==> questions[i].id != questions[j].id
  }

  /** The bank questions of an exam: among those it references, each once. */
  ghost predicate Resolved(questions: seq<Question>, refs: seq<Ref>) {
    && DistinctIds(questions)
    && forall i :: 0 <= i < |questions| ==> exists j :: 0 <= j < |refs| && refs[j].id == questions[i].id
  }

  lemma {:induction false} GradedAt(questions: seq<Question>, weights: map<QuestionId, real>, answers: map<QuestionId, Answer>, i: nat)
    requires i < |questions| && DistinctIds(questions)
    ensures questions[i].id in Graded(questions, weights, answers)
    ensures Graded(questions, weights, answers)[questions[i].id] == ScoreOf(questions[i], weights, answers)
    decreases |questions|
  {
    if i < |questions| - 1 {
      GradedAt(questions[..|questions| - 1], weights, answers, i);
    }
  }

  lemma {:induction false} GradedKeys(questions: seq<Question>, weights: map<QuestionId, real>, answers: map<QuestionId, Answer>, id: QuestionId)
    ensures id in Graded(questions, weights, answers) <==> exists i :: 0 <= i < |questions| && questions[i].id == id
    decreases |questions|
  {
    if questions != [] {
      GradedKeys(questions[..|questions| - 1], weights, answers, id);
    }
  }

  /** Exactly the answered short answers await a human. */
  lemma UngradedIff(questions: seq<Question>, weights: map<QuestionId, real>, answers: map<QuestionId, Answer>)
    requires DistinctIds(questions)
    ensures (exists id :: id in Graded(questions, weights, answers) && Graded(questions, weights, answers)[id].None?) <==>
      exists i :: 0 <= i < |questions| && questions[i].kind == ShortAnswer && questions[i].id in answers
  {
    var scores := Graded(questions, weights, answers);
    if id :| id in scores && scores[id].None? {
      GradedKeys(questions, weights, answers, id);
      var i :| 0 <= i < |questions| && questions[i].id == id;
      GradedAt(questions, weights, answers, i);
      assert questions[i].kind == ShortAnswer && questions[i].id in answers;
    }
    if i :| 0 <= i < |questions| && questions[i].kind == ShortAnswer && questions[i].id in answers {
      GradedAt(questions, weights, answers, i);
    }
  }

  lemma EarnedWithinWeights(questions: seq<Question>, refs: seq<Ref>, answers: map<QuestionId, Answer>)
    requires Resolved(questions, refs) && PositiveRefs(refs)
    ensures var earned, weights := Values(Graded(questions, WeightsOf(refs), answers)), WeightsOf(refs);
      && earned.Keys <= weights.Keys
      && (forall k :: k in weights ==> weights[k] > 0.0)
      && (forall k :: k in earned ==> 0.0 <= earned[k] <= weights[k])
  {
    var weights := WeightsOf(refs);
    var earned := Values(Graded(questions, weights, answers));
    forall k | k in weights ensures weights[k] > 0.0 {
      WeightKeys(refs, k);
    }
    forall k | k in earned ensures k in weights && 0.0 <= earned[k] <= weights[k] {
      GradedKeys(questions, weights, answers, k);
      var i :| 0 <= i < |questions| && questions[i].id == k;
      GradedAt(questions, weights, answers, i);
      WeightKeys(refs, k);
    }
  }

  /** What choices earn lies between nothing and the exam's total. */
  lemma EarnedWithinTotal(questions: seq<Question>, refs: seq<Ref>, answers: map<QuestionId, Answer>)
    requires Resolved(questions, refs) && PositiveRefs(refs)
    ensures 0.0 <= Sum(Values(Graded(questions, WeightsOf(refs), answers))) <= TotalWeight(refs)
  {
    EarnedWithinWeights(questions, refs, answers);
    SumsCompare(Values(Graded(questions, WeightsOf(refs), answers)), WeightsOf(refs));
    WeightsWithinTotal(refs);
  }

  ghost predicate AllFound(questions: seq<Question>, refs: seq<Ref>) {
    forall j :: 0 <= j < |refs| ==> exists i :: 0 <= i < |questions| && questions[i].id == refs[j].id
  }

  ghost predicate AllRight(questions: seq<Question>, answers: map<QuestionId, Answer>) {
    forall i :: 0 <= i < |questions| ==> questions[i].id in answers && Right(questions[i], answers[questions[i].id])
  }

  ghost predicate FullyEarned(questions: seq<Question>, refs: seq<Ref>, answers: map<QuestionId, Answer>) {
    Values(Graded(questions, WeightsOf(refs), answers)) == WeightsOf(refs)
  }

  lemma FullyEarnedAt(questions: seq<Question>, refs: seq<Ref>, answers: map<QuestionId, Answer>, i: nat)
    requires Resolved(questions, refs) && PositiveRefs(refs) && i < |questions|
    requires FullyEarned(questions, refs, answers)
    ensures questions[i].id in answers && Right(questions[i], answers[questions[i].id])
  {
    GradedAt(questions, WeightsOf(refs), answers, i);
    WeightKeys(refs, questions[i].id);
    assert questions[i].id in Values(Graded(questions, WeightsOf(refs), answers));
  }

  lemma FullyEarnedFinds(questions: seq<Question>, refs: seq<Ref>, answers: map<QuestionId, Answer>, j: nat)
    requires PositiveRefs(refs) && j < |refs| && FullyEarned(questions, refs, answers)
    ensures exists i :: 0 <= i < |questions| && questions[i].id == refs[j].id
  {
    WeightKeys(refs, refs[j].id);
    assert refs[j].id in Values(Graded(questions, WeightsOf(refs), answers));
    GradedKeys(questions, WeightsOf(refs), answers, refs[j].id);
  }

  lemma RightScores(q: Question, weights: map<QuestionId, real>, answers: map<QuestionId, Answer>)
    requires q.id in answers && Right(q, answers[q.id])
    ensures ScoreOf(q, weights, answers) == Some(Weight(weights, q.id))
  {
  }

  lemma FindQuestion(questions: seq<Question>, refs: seq<Ref>, k: QuestionId) returns (i: nat)
    requires PositiveRefs(refs) && AllFound(questions, refs) && k in WeightsOf(refs)
    ensures i < |questions| && questions[i].id == k
  {
    WeightKeys(refs, k);
    var j :| 0 <= j < |refs| && refs[j].id == k;
    i :| i < |questions| && questions[i].id == refs[j].id;
  }

  lemma EarnedAt(questions: seq<Question>, weights: map<QuestionId, real>, answers: map<QuestionId, Answer>, i: nat)
    requires i < |questions| && DistinctIds(questions)
    requires questions[i].id in weights && ScoreOf(questions[i], weights, answers) == Some(weights[questions[i].id])
    ensures questions[i].id in Values(Graded(questions, weights, answers))
    ensures Values(Graded(questions, weights, answers))[questions[i].id] == weights[questions[i].id]
  {
    GradedAt(questions, weights, answers, i);
  }

  lemma RightIsFullyEarned(questions: seq<Question>, refs: seq<Ref>, answers: map<QuestionId, Answer>)
    requires Resolved(questions, refs) && PositiveRefs(refs)
    requires AllFound(questions, refs) && AllRight(questions, answers)
    ensures FullyEarned(questions, refs, answers)
  {
    var weights := WeightsOf(refs);
    var earned := Values(Graded(questions, weights, answers));
    EarnedWithinWeights(questions, refs, answers);
    forall k | k in weights ensures k in earned && earned[k] == weights[k] {
      var i := FindQuestion(questions, refs, k);
      RightScores(questions[i], weights, answers);
      EarnedAt(questions, weights, answers, i);
    }
  }

  lemma FullEarnedIff(questions: seq<Question>, refs: seq<Ref>, answers: map<QuestionId, Answer>)
    requires Resolved(questions, refs) && PositiveRefs(refs)
    ensures FullyEarned(questions, refs, answers) <==> AllFound(questions, refs) && AllRight(questions, answers)
  {
    if FullyEarned(questions, refs, answers) {
      forall j: nat | j < |refs| ensures exists i :: 0 <= i < |questions| && questions[i].id == refs[j].id {
        FullyEarnedFinds(questions, refs, answers, j);
      }
      forall i: nat | i < |questions| ensures questions[i].id in answers && Right(questions[i], answers[questions[i].id]) {
        FullyEarnedAt(questions, refs, answers, i);
      }
    }
    if AllFound(questions, refs) && AllRight(questions, answers) {
      RightIsFullyEarned(questions, refs, answers);
    }
  }

  /** Full marks are reached exactly when no question is referenced twice, every reference resolves
      and every question is a choice answered right. */
  lemma FullMarksIff(questions: seq<Question>, refs: seq<Ref>, answers: map<QuestionId, Answer>)
    requires Resolved(questions, refs) && PositiveRefs(refs)
    ensures Sum(Values(Graded(questions, WeightsOf(refs), answers))) == TotalWeight(refs) <==>
      DistinctRefs(refs) && AllFound(questions, refs) && AllRight(questions, answers)
  {
    EarnedWithinWeights(questions, refs, answers);
    SumsCompare(Values(Graded(questions, WeightsOf(refs), answers)), WeightsOf(refs));
    WeightsWithinTotal(refs);
    FullEarnedIff(questions, refs, answers);
  }
}
