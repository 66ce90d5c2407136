/** Grouping a student's course attempts into semesters with their credits and grade points. */
module Transcript {
  import opened Wrappers
  import opened Academic
  import opened Collections

  datatype Attempt = Attempt(year: int, term: Term, code: string, name: string, credits: int, grade: Option<real>, status: EnrollmentStatus)

  datatype Key = Key(year: int, term: Term)

  datatype Semester = Semester(key: Key, courses: seq<Attempt>, credits: int, gpa: real)

  datatype Record = Record(semesters: seq<Semester>, creditsEarned: int, creditsRequired: int, cumulativeGPA: real, progress: real)

  function KeyOf(a: Attempt): Key { Key(a.year, a.term) }

  function GradeToPoints(grade: real): (points: real)
    ensures 0.0 <= points <= 4.0
  {
    if grade >= 90.0 then 4.0
    else if grade >= 85.0 then 3.7
    else if grade >= 80.0 then 3.3
    else if grade >= 75.0 then 3.0
    else if grade >= 70.0 then 2.7
    else if grade >= 65.0 then 2.3
    else if grade >= 60.0 then 2.0
    else if grade >= 55.0 then 1.7
    else if grade >= 50.0 then 1.0
    else 0.0
  }

  /** A better grade never has fewer points. */
  lemma PointsMonotone(a: real, b: real)
    requires a <= b
    ensures GradeToPoints(a) <= GradeToPoints(b)
  {
  }

  /** The scale, step by step. */
  lemma PointsScale(g: real)
    ensures GradeToPoints(g) in {0.0, 1.0, 1.7, 2.0, 2.3, 2.7, 3.0, 3.3, 3.7, 4.0}
    ensures (GradeToPoints(g) >= 1.0 <==> g >= 50.0) && (GradeToPoints(g) >= 1.7 <==> g >= 55.0)
    ensures (GradeToPoints(g) >= 2.0 <==> g >= 60.0) && (GradeToPoints(g) >= 2.3 <==> g >= 65.0)
    ensures (GradeToPoints(g) >= 2.7 <==> g >= 70.0) && (GradeToPoints(g) >= 3.0 <==> g >= 75.0)
    ensures (GradeToPoints(g) >= 3.3 <==> g >= 80.0) && (GradeToPoints(g) >= 3.7 <==> g >= 85.0)
    ensures GradeToPoints(g) >= 4.0 <==> g >= 90.0
  {
  }

  // ---- The grouping, said plainly --------------------------------------------------------------------

  /** The semesters in the order they first occur. */
  function Keys(attempts: seq<Attempt>): seq<Key> {
    if attempts == [] then []
    else
      var before, k := Keys(attempts[..|attempts| - 1]), KeyOf(attempts[|attempts| - 1]);
      if k in before then before else before + [k]
  }

  /** The attempts of one semester, in their order. */
  function Of(attempts: seq<Attempt>, k: Key): seq<Attempt> {
    if attempts == [] then []
    else
      var last := attempts[|attempts| - 1];
      Of(attempts[..|attempts| - 1], k) + if KeyOf(last) == k then [last] else []
  }

  function Credits(attempts: seq<Attempt>, counted: set<EnrollmentStatus>): int {
    if attempts == [] then 0
    else
      var last := attempts[|attempts| - 1];
      Credits(attempts[..|attempts| - 1], counted) + if last.status in counted then last.credits else 0
  }

  function PointsOf(a: Attempt): real { if a.grade.Some? then GradeToPoints(a.grade.value) * a.credits as real else 0.0 }

  function Points(attempts: seq<Attempt>, counted: set<EnrollmentStatus>): real {
    if attempts == [] then 0.0
    else
      var last := attempts[|attempts| - 1];
      Points(attempts[..|attempts| - 1], counted) + if last.status in counted then PointsOf(last) else 0.0
  }

  const GRADED: set<EnrollmentStatus> := {Completed, Failed}

  function Ratio(points: real, credits: int, otherwise: real): real {
    if credits > 0 then points / credits as real else otherwise
  }

  /** A semester as the transcript shows it. */
  function Shown(attempts: seq<Attempt>, k: Key): Semester {
    var mine := Of(attempts, k);
    Semester(k, mine, Credits(mine, GRADED), Ratio(Points(mine, GRADED), Credits(mine, GRADED), Points(mine, GRADED)))
  }

  function Expected(attempts: seq<Attempt>, required: int): Record {
    var keys := Keys(attempts);
    var earned := Credits(attempts, {Completed});
    Record(seq(|keys|, i requires 0 <= i < |keys| => Shown(attempts, keys[i])), earned, required,
      Ratio(Points(attempts, {Completed}), earned, 0.0),
      if required > 0 then earned as real / required as real * 100.0 else 0.0)
  }

  /** One more attempt: it joins its own semester and no other. */
  lemma SemesterGrows(attempts: seq<Attempt>, a: Attempt, k: Key)
    ensures Shown([], k).courses == [] && Shown(attempts, k).key == k
    ensures Shown(attempts + [a], k).courses ==
      Shown(attempts, k).courses + if a.year == k.year && a.term == k.term then [a] else []
  {
    assert (attempts + [a])[..|attempts|] == attempts;
  }

  // The credits and points of a list, one attempt after the other.
  lemma TalliesGrow(mine: seq<Attempt>, a: Attempt, counted: set<EnrollmentStatus>)
    ensures Credits([], counted) == 0 && Points([], counted) == 0.0
    ensures Credits(mine + [a], counted) == Credits(mine, counted) + if a.status in counted then a.credits else 0
    ensures Points(mine + [a], counted) == Points(mine, counted) + if a.status in counted then PointsOf(a) else 0.0
  {
    assert (mine + [a])[..|mine|] == mine;
  }

  /** The average times the credits is the points; without credits it is something else. */
  predicate Averages(gpa: real, credits: int, points: real, otherwise: real) {
    if credits > 0 then gpa * credits as real == points else gpa == otherwise
  }

  lemma RatioAverages(points: real, credits: int, otherwise: real)
    ensures Averages(Ratio(points, credits, otherwise), credits, points, otherwise)
  {
  }

  /** In a semester completed and failed courses count, over all only completed ones; an average weighs
      the points by the credits. */
  lemma TotalsAre(attempts: seq<Attempt>, k: Key, required: int)
    ensures var s := Shown(attempts, k);
      && s.credits == Credits(s.courses, {Completed, Failed})
      && Averages(s.gpa, s.credits, Points(s.courses, {Completed, Failed}), Points(s.courses, {Completed, Failed}))
    ensures var r := Expected(attempts, required);
      && r.creditsEarned == Credits(attempts, {Completed}) && r.creditsRequired == required
      && Averages(r.cumulativeGPA, r.creditsEarned, Points(attempts, {Completed}), 0.0)
  {
    var mine := Of(attempts, k);
    RatioAverages(Points(mine, GRADED), Credits(mine, GRADED), Points(mine, GRADED));
    RatioAverages(Points(attempts, {Completed}), Credits(attempts, {Completed}), 0.0);
  }

  lemma ProgressIs(attempts: seq<Attempt>, required: int)
    ensures var r := Expected(attempts, required);
      if required > 0 then r.progress * required as real == r.creditsEarned as real * 100.0 else r.progress == 0.0
  {
  }

  // ---- Nothing lost, nothing twice ---------------------------------------------------------------------

  lemma {:induction false} KeysAreFirstOccurrences(attempts: seq<Attempt>)
    ensures NoRepeats(Keys(attempts))
    ensures forall k :: k in Keys(attempts) <==> exists a :: a in attempts && KeyOf(a) == k
    decreases |attempts|
  {
    if attempts != [] {
      KeysAreFirstOccurrences(attempts[..|attempts| - 1]);
      assert attempts == attempts[..|attempts| - 1] + [attempts[|attempts| - 1]];
    }
  }

  /** Semester i starts before semester j in the record. */
  ghost predicate StartsBefore(attempts: seq<Attempt>, k: Key, l: Key) {
    exists m :: 0 <= m < |attempts| && KeyOf(attempts[m]) == k && forall n :: 0 <= n <= m ==> KeyOf(attempts[n]) != l
  }

  lemma StartsBeforeStays(attempts: seq<Attempt>, a: Attempt, k: Key, l: Key)
    requires StartsBefore(attempts, k, l)
    ensures StartsBefore(attempts + [a], k, l)
  {
    var m :| 0 <= m < |attempts| && KeyOf(attempts[m]) == k && forall n :: 0 <= n <= m ==> KeyOf(attempts[n]) != l;
    assert KeyOf((attempts + [a])[m]) == k;
  }

  lemma FreshStartsLast(attempts: seq<Attempt>, k: Key, l: Key)
    requires k in Keys(attempts) && l !in Keys(attempts)
    ensures StartsBefore(attempts, k, l)
  {
    KeysAreFirstOccurrences(attempts);
    var a :| a in attempts && KeyOf(a) == k;
    var m :| 0 <= m < |attempts| && attempts[m] == a;
    forall n | 0 <= n <= m ensures KeyOf(attempts[n]) != l {
      assert attempts[n] in attempts;
    }
  }

  /** The semesters come in the order in which the record first mentions them. */
  lemma {:induction false} KeysInFirstOrder(attempts: seq<Attempt>, i: nat, j: nat)
    requires i < j < |Keys(attempts)|
    ensures StartsBefore(attempts, Keys(attempts)[i], Keys(attempts)[j])
    decreases |attempts|
  {
    var n := |attempts| - 1;
    var rest, before := attempts[..n], Keys(attempts[..n]);
    assert attempts == rest + [attempts[n]];
    if j < |before| {
      KeysInFirstOrder(rest, i, j);
    } else {
      assert before[i] in before;
      FreshStartsLast(rest, before[i], KeyOf(attempts[n]));
    }
    StartsBeforeStays(rest, attempts[n], Keys(attempts)[i], Keys(attempts)[j]);
  }

  lemma {:induction false} NoneOf(attempts: seq<Attempt>, k: Key)
    requires k !in Keys(attempts)
    ensures Of(attempts, k) == []
    decreases |attempts|
  {
    if attempts != [] {
      NoneOf(attempts[..|attempts| - 1], k);
    }
  }

  function Flat(attempts: seq<Attempt>, keys: seq<Key>): seq<Attempt> {
    if keys == [] then [] else Flat(attempts, keys[..|keys| - 1]) + Of(attempts, keys[|keys| - 1])
  }

  lemma OfGrows(attempts: seq<Attempt>, a: Attempt, k: Key)
    ensures Of(attempts + [a], k) == Of(attempts, k) + if KeyOf(a) == k then [a] else []
  {
    assert (attempts + [a])[..|attempts|] == attempts;
  }

  // One more element on one side of a join, or on neither.
  lemma JoinGrows(front: seq<Attempt>, grown: seq<Attempt>, back: seq<Attempt>, a: Attempt, inFront: bool, inBack: bool)
    requires multiset(grown) == multiset(front) + if inFront then multiset{a} else multiset{}
    requires !(inFront && inBack)
    ensures multiset(grown + (back + if inBack then [a] else [])) ==
      multiset(front + back) + if inFront || inBack then multiset{a} else multiset{}
  {
  }

  lemma DistinctSplit(keys: seq<Key>, k: Key)
    requires NoRepeats(keys) && keys != []
    ensures var front, last := keys[..|keys| - 1], keys[|keys| - 1];
      NoRepeats(front) && (k in keys <==> k in front || k == last) && !(k in front && k == last)
  {
    assert keys == keys[..|keys| - 1] + [keys[|keys| - 1]];
  }

  lemma {:induction false} FlatGrows(attempts: seq<Attempt>, a: Attempt, keys: seq<Key>)
    requires NoRepeats(keys)
    ensures multiset(Flat(attempts + [a], keys)) ==
      multiset(Flat(attempts, keys)) + if KeyOf(a) in keys then multiset{a} else multiset{}
    decreases |keys|
  {
    if keys != [] {
      var front, last := keys[..|keys| - 1], keys[|keys| - 1];
      DistinctSplit(keys, KeyOf(a));
      FlatGrows(attempts, a, front);
      OfGrows(attempts, a, last);
      JoinGrows(Flat(attempts, front), Flat(attempts + [a], front), Of(attempts, last), a, KeyOf(a) in front, KeyOf(a) == last);
    }
  }

  /** The semesters together hold exactly the attempts. */
  lemma {:induction false} SemestersHoldEverything(attempts: seq<Attempt>)
    ensures multiset(Flat(attempts, Keys(attempts))) == multiset(attempts)
    decreases |attempts|
  {
    if attempts != [] {
      var n := |attempts| - 1;
      var rest, a, before := attempts[..n], attempts[n], Keys(attempts[..n]);
      assert attempts == rest + [a];
      SemestersHoldEverything(rest);
      KeysAreFirstOccurrences(rest);
      FlatGrows(rest, a, before);
      if KeyOf(a) !in before {
        NoneOf(rest, KeyOf(a));
        OfGrows(rest, a, KeyOf(a));
        assert (before + [KeyOf(a)])[..|before|] == before;
      }
    }
  }

  // ---- Averages stay on the scale --------------------------------------------------------------------------

  ghost predicate NonNegative(attempts: seq<Attempt>) { forall i :: 0 <= i < |attempts| ==> attempts[i].credits >= 0 }

  lemma PointsInRange(a: Attempt)
    requires a.credits >= 0
    ensures 0.0 <= PointsOf(a) <= 4.0 * a.credits as real
  {
    if a.grade.Some? {
      Product(GradeToPoints(a.grade.value), a.credits as real);
    }
  }

  lemma Product(p: real, c: real)
    requires 0.0 <= p <= 4.0 && c >= 0.0
    ensures 0.0 <= p * c <= 4.0 * c
  {
    assert (4.0 - p) * c >= 0.0;
  }

  lemma {:induction false} SumsInRange(attempts: seq<Attempt>, counted: set<EnrollmentStatus>)
    requires NonNegative(attempts)
    ensures Credits(attempts, counted) >= 0
    ensures 0.0 <= Points(attempts, counted) <= 4.0 * Credits(attempts, counted) as real
    decreases |attempts|
  {
    if attempts != [] {
      SumsInRange(attempts[..|attempts| - 1], counted);
      PointsInRange(attempts[|attempts| - 1]);
    }
  }

  lemma Quotient(points: real, c: real)
    requires c > 0.0 && 0.0 <= points <= 4.0 * c
    ensures 0.0 <= points / c <= 4.0
  {
    var q := points / c;
    assert q * c == points;
    assert q < 0.0 ==> q * c < 0.0;
    assert q > 4.0 ==> (q - 4.0) * c > 0.0;
  }

  lemma RatioInRange(points: real, credits: int)
    requires credits >= 0 && 0.0 <= points <= 4.0 * credits as real
    ensures 0.0 <= Ratio(points, credits, points) <= 4.0
    ensures 0.0 <= Ratio(points, credits, 0.0) <= 4.0
  {
    if credits > 0 {
      Quotient(points, credits as real);
    }
  }

  lemma {:induction false} OfIsNonNegative(attempts: seq<Attempt>, k: Key)
    requires NonNegative(attempts)
    ensures NonNegative(Of(attempts, k))
    decreases |attempts|
  {
    if attempts != [] {
      OfIsNonNegative(attempts[..|attempts| - 1], k);
    }
  }

  /** With no negative credits every average, of a semester and of all, is between 0 and 4. */
  lemma AveragesInRange(attempts: seq<Attempt>, required: int)
    requires NonNegative(attempts)
    ensures 0.0 <= Expected(attempts, required).cumulativeGPA <= 4.0
    ensures forall i :: 0 <= i < |Expected(attempts, required).semesters| ==>
      0.0 <= Expected(attempts, required).semesters[i].gpa <= 4.0
  {
    SumsInRange(attempts, {Completed});
    RatioInRange(Points(attempts, {Completed}), Credits(attempts, {Completed}));
    var keys := Keys(attempts);
    forall i | 0 <= i < |keys| ensures 0.0 <= Shown(attempts, keys[i]).gpa <= 4.0 {
      var mine := Of(attempts, keys[i]);
      OfIsNonNegative(attempts, keys[i]);
      SumsInRange(mine, GRADED);
      RatioInRange(Points(mine, GRADED), Credits(mine, GRADED));
    }
  }

  // ---- The credits of the semesters ---------------------------------------------------------------------------

  lemma {:induction false} CreditsJoin(a: seq<Attempt>, b: seq<Attempt>, counted: set<EnrollmentStatus>)
    ensures Credits(a + b, counted) == Credits(a, counted) + Credits(b, counted)
    decreases |b|
  {
    if b == [] {
      assert a + b == a;
    } else {
      CreditsJoin(a, b[..|b| - 1], counted);
      assert (a + b)[..|a + b| - 1] == a + b[..|b| - 1];
    }
  }

  // One attempt taken out of the record.
  lemma CreditsWithout(b: seq<Attempt>, i: nat, counted: set<EnrollmentStatus>)
    requires i < |b|
    ensures Credits(b, counted) == Credits(b[..i] + b[i + 1..], counted) + Credits([b[i]], counted)
  {
    assert b == b[..i] + ([b[i]] + b[i + 1..]);
    CreditsJoin(b[..i], [b[i]] + b[i + 1..], counted);
    CreditsJoin([b[i]], b[i + 1..], counted);
    CreditsJoin(b[..i], b[i + 1..], counted);
  }

  lemma MultisetWithout(b: seq<Attempt>, i: nat)
    requires i < |b|
    ensures multiset(b[..i] + b[i + 1..]) == multiset(b) - multiset{b[i]}
  {
    assert b == b[..i] + ([b[i]] + b[i + 1..]);
  }

  lemma {:induction false} CreditsOfMultiset(a: seq<Attempt>, b: seq<Attempt>, counted: set<EnrollmentStatus>)
    requires multiset(a) == multiset(b)
    ensures Credits(a, counted) == Credits(b, counted)
    decreases |a|
  {
    if a == [] {
      assert |multiset(b)| == 0;
    } else {
      var k := |a| - 1;
      assert a[..k] + a[k + 1..] == a[..k];
      assert a[k] in multiset(b);
      var i :| 0 <= i < |b| && b[i] == a[k];
      MultisetWithout(a, k);
      MultisetWithout(b, i);
      CreditsOfMultiset(a[..k], b[..i] + b[i + 1..], counted);
      CreditsWithout(a, k, counted);
      CreditsWithout(b, i, counted);
    }
  }

  /** The sum over the semesters' own attempts of the credits with one status. */
  function SemesterSum(attempts: seq<Attempt>, keys: seq<Key>, counted: set<EnrollmentStatus>): int {
    if keys == [] then 0
    else SemesterSum(attempts, keys[..|keys| - 1], counted) + Credits(Of(attempts, keys[|keys| - 1]), counted)
  }

  lemma {:induction false} SemesterSumIsFlat(attempts: seq<Attempt>, keys: seq<Key>, counted: set<EnrollmentStatus>)
    ensures SemesterSum(attempts, keys, counted) == Credits(Flat(attempts, keys), counted)
    decreases |keys|
  {
    if keys != [] {
      SemesterSumIsFlat(attempts, keys[..|keys| - 1], counted);
      CreditsJoin(Flat(attempts, keys[..|keys| - 1]), Of(attempts, keys[|keys| - 1]), counted);
    }
  }

  /** The credits earned over all are the completed credits of the semesters together. */
  lemma EarnedIsSumOfSemesters(attempts: seq<Attempt>, counted: set<EnrollmentStatus>)
    ensures Credits(attempts, counted) == SemesterSum(attempts, Keys(attempts), counted)
  {
    SemestersHoldEverything(attempts);
    SemesterSumIsFlat(attempts, Keys(attempts), counted);
    CreditsOfMultiset(Flat(attempts, Keys(attempts)), attempts, counted);
  }

  // ---- The program -------------------------------------------------------------------------------------------

  /** The map and the running totals after some of the attempts; a semester's gpa field holds its
      points until the end. */
  ghost predicate Running(attempts: seq<Attempt>, semesters: map<Key, Semester>, order: seq<Key>) {
    && order == Keys(attempts)
    && (forall k :: k in semesters <==> k in order)
    && forall k :: k in semesters ==> semesters[k] == Sofar(attempts, k)
  }

  function Sofar(attempts: seq<Attempt>, k: Key): Semester {
    var mine := Of(attempts, k);
    Semester(k, mine, Credits(mine, GRADED), Points(mine, GRADED))
  }

  function WithAttempt(s: Semester, a: Attempt): Semester {
    Semester(s.key, s.courses + [a],
      if a.status in GRADED then s.credits + a.credits else s.credits,
      if a.status in GRADED then s.gpa + PointsOf(a) else s.gpa)
  }

  lemma SofarGrows(attempts: seq<Attempt>, a: Attempt, k: Key)
    ensures Sofar(attempts + [a], k) == if KeyOf(a) == k then WithAttempt(Sofar(attempts, k), a) else Sofar(attempts, k)
  {
    OfGrows(attempts, a, k);
    TalliesGrow(Of(attempts, k), a, GRADED);
    assert Of(attempts, k) + [] == Of(attempts, k);
  }

  lemma KeysGrow(attempts: seq<Attempt>, a: Attempt)
    ensures Keys(attempts + [a]) == if KeyOf(a) in Keys(attempts) then Keys(attempts) else Keys(attempts) + [KeyOf(a)]
  {
    assert (attempts + [a])[..|attempts|] == attempts;
  }

  // The running semester the next attempt goes into.
  lemma NextSemester(attempts: seq<Attempt>, semesters: map<Key, Semester>, order: seq<Key>, k: Key)
    requires Running(attempts, semesters, order)
    ensures Sofar(attempts, k) == if k in semesters then semesters[k] else Semester(k, [], 0, 0.0)
  {
    if k !in semesters {
      NoneOf(attempts, k);
    }
  }

  lemma OneMoreAttempt(attempts: seq<Attempt>, a: Attempt, semesters: map<Key, Semester>, order: seq<Key>)
    requires Running(attempts, semesters, order)
    ensures var k := KeyOf(a);
      var before := if k in semesters then semesters[k] else Semester(k, [], 0, 0.0);
      Running(attempts + [a], semesters[k := WithAttempt(before, a)], if k in semesters then order else order + [k])
  {
    KeysGrow(attempts, a);
    NextSemester(attempts, semesters, order, KeyOf(a));
    forall k ensures Sofar(attempts + [a], k) == if KeyOf(a) == k then WithAttempt(Sofar(attempts, k), a) else Sofar(attempts, k) {
      SofarGrows(attempts, a, k);
    }
  }

  method AddAttempt(s: Semester, a: Attempt) returns (t: Semester)
    ensures t == WithAttempt(s, a)
  {
    t := s.(courses := s.courses + [a]);
    if a.status == Completed || a.status == Failed {
      t := t.(credits := t.credits + a.credits);
      if a.grade.Some? {
        t := t.(gpa := t.gpa + GradeToPoints(a.grade.value) * a.credits as real);
      }
    }
  }

  /** The average of one running semester. */
  function Closed(s: Semester): Semester {
    if s.credits > 0 then s.(gpa := s.gpa / s.credits as real) else s
  }

  lemma ClosedIsShown(attempts: seq<Attempt>, k: Key)
    ensures Closed(Sofar(attempts, k)) == Shown(attempts, k)
  {
  }

  lemma RunningAt(attempts: seq<Attempt>, semesters: map<Key, Semester>, order: seq<Key>, i: nat)
    requires Running(attempts, semesters, order) && i < |order|
    ensures order[i] in semesters && Closed(semesters[order[i]]) == Shown(attempts, order[i])
  {
    ClosedIsShown(attempts, order[i]);
  }

  method Average(s: Semester) returns (t: Semester)
    ensures t == Closed(s)
  {
    t := s;
    if t.credits > 0 {
      t := t.(gpa := t.gpa / t.credits as real);
    }
  }

  ghost predicate AllClosed(semesters: seq<Semester>, semesterMap: map<Key, Semester>, order: seq<Key>) {
    && |semesters| == |order|
    && forall j :: 0 <= j < |order| ==> order[j] in semesterMap && semesters[j] == Closed(semesterMap[order[j]])
  }

  method Averaged(semesterMap: map<Key, Semester>, order: seq<Key>) returns (semesters: seq<Semester>)
    requires forall j :: 0 <= j < |order| ==> order[j] in semesterMap
    ensures AllClosed(semesters, semesterMap, order)
  {
    semesters := [];
    for i := 0 to |order|
      invariant AllClosed(semesters, semesterMap, order[..i])
    {
      var semester := Average(semesterMap[order[i]]);
      assert order[..i + 1] == order[..i] + [order[i]];
      semesters := semesters + [semester];
    }
    assert order[..|order|] == order;
  }

  lemma ClosedIsExpected(attempts: seq<Attempt>, semesterMap: map<Key, Semester>, order: seq<Key>, semesters: seq<Semester>, required: int)
    requires Running(attempts, semesterMap, order) && AllClosed(semesters, semesterMap, order)
    ensures semesters == Expected(attempts, required).semesters
  {
    forall j | 0 <= j < |order| ensures semesters[j] == Shown(attempts, order[j]) {
      RunningAt(attempts, semesterMap, order, j);
    }
  }

  method BuildTranscript(data: Option<seq<Attempt>>, required: int) returns (r: Record)
    ensures data.None? ==> r == Record([], 0, required, 0.0, 0.0)
    ensures data.Some? ==> r == Expected(data.value, required)
  {
    if data.None? {
      return Record([], 0, required, 0.0, 0.0);
    }
    var attempts := data.value;
    var semesterMap: map<Key, Semester>, order: seq<Key> := map[], [];
    var totalPoints, earned := 0.0, 0;
    for i := 0 to |attempts|
      invariant Running(attempts[..i], semesterMap, order)
      invariant earned == Credits(attempts[..i], {Completed}) && totalPoints == Points(attempts[..i], {Completed})
    {
      var a := attempts[i];
      var k := KeyOf(a);
      assert attempts[..i + 1] == attempts[..i] + [a] && attempts[..i + 1][..i] == attempts[..i];
      OneMoreAttempt(attempts[..i], a, semesterMap, order);
      var semester := Semester(k, [], 0, 0.0);
      if k in semesterMap {
        semester := semesterMap[k];
      } else {
        order := order + [k];
      }
      semester := AddAttempt(semester, a);
      semesterMap := semesterMap[k := semester];
      if a.status == Completed {
        earned := earned + a.credits;
        if a.grade.Some? {
          totalPoints := totalPoints + GradeToPoints(a.grade.value) * a.credits as real;
        }
      }
    }
    assert attempts[..|attempts|] == attempts;
    var semesters := Averaged(semesterMap, order);
    ClosedIsExpected(attempts, semesterMap, order, semesters, required);
    var gpa, progress := 0.0, 0.0;
    if earned > 0 {
      gpa := totalPoints / earned as real;
    }
    if required > 0 {
      progress := earned as real / required as real * 100.0;
    }
    r := Record(semesters, earned, required, gpa, progress);
  }
}
