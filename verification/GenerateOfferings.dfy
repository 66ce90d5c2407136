/** Creating the offerings a semester's cohorts need, whatever order the cohorts are taken in. */
module GenerateOfferings {
  import opened Wrappers
  import opened Academic

  datatype Shift = Day | Evening | OtherShift(name: string)

  datatype Cohort = Cohort(program: nat, year: int, stage: int)
  datatype PlanItem = PlanItem(course: nat, stage: int, term: Term)

  /** An offering of the semester. */
  datatype Key = Key(course: nat, cohortYear: int, shift: Shift)

  /** What the run reads. None and false are failed lookups; creates is false where the store fails
      the insert. */
  datatype Facts = Facts(
    term: Term,
    students: Option<seq<Cohort>>,
    plan: (nat, int) -> Option<seq<PlanItem>>,
    curriculum: Cohort -> Option<seq<nat>>,
    course: nat -> bool,
    answers: Key -> bool,
    creates: Key -> bool)

  datatype Outcome = Created | Skipped | Errored
  datatype Record = Record(key: Key, outcome: Outcome)

  datatype Error = SemesterNotActive | LookupFailed

  function Shifts(shift: Option<Shift>): seq<Shift> {
    if shift.Some? && (shift.value == Day || shift.value == Evening) then [shift.value] else [Day, Evening]
  }

  /** The cohorts of the active students; without any, the stages of the plan that is asked for. */
  function Cohorts(f: Facts, program: Option<nat>, cohortYear: Option<int>): Option<set<Cohort>> {
    if f.students.None? then None
    else if f.students.value != [] || program.None? || cohortYear.None? then Some(set c | c in f.students.value)
    else if f.plan(program.value, cohortYear.value).None? then None
    else
      var items := f.plan(program.value, cohortYear.value).value;
      Some(set item | item in items && item.term == f.term :: Cohort(program.value, cohortYear.value, item.stage))
  }

  // ---- What the curriculum requires --------------------------------------------------------------------

  predicate Requires(f: Facts, c: Cohort, shifts: seq<Shift>, k: Key) {
    && k.cohortYear == c.year && k.shift in shifts
    && f.curriculum(c).Some? && k.course in f.curriculum(c).value && f.course(k.course)
  }

  function Offered(c: Cohort, course: nat, shifts: seq<Shift>): set<Key> {
    set shift | shift in shifts :: Key(course, c.year, shift)
  }

  lemma OneMoreShift(c: Cohort, course: nat, shifts: seq<Shift>, i: nat)
    requires i < |shifts|
    ensures Offered(c, course, shifts[..i + 1]) == Offered(c, course, shifts[..i]) + {Key(course, c.year, shifts[i])}
  {
    assert shifts[..i + 1] == shifts[..i] + [shifts[i]];
  }

  function RequiredBy(f: Facts, c: Cohort, shifts: seq<Shift>): set<Key> {
    if f.curriculum(c).None? then {}
    else
      var courses := f.curriculum(c).value;
      set course, shift | course in courses && shift in shifts && f.course(course) :: Key(course, c.year, shift)
  }

  /** All the cohorts require. */
  function RequiredByAll(f: Facts, cohorts: set<Cohort>, shifts: seq<Shift>): set<Key> {
    set c, k | c in cohorts && k in RequiredBy(f, c, shifts) :: k
  }

  function Wanted(f: Facts, program: Option<nat>, cohortYear: Option<int>, shift: Option<Shift>): set<Key> {
    var cohorts := Cohorts(f, program, cohortYear);
    if cohorts.None? then {} else RequiredByAll(f, cohorts.value, Shifts(shift))
  }

  /** The offerings with the wanted ones the store takes. */
  function Filled(offerings: set<Key>, f: Facts, wanted: set<Key>): set<Key> {
    offerings + set k | k in wanted && f.creates(k)
  }

  /** No lookup of the run fails. */
  ghost predicate AllAnswer(f: Facts, program: Option<nat>, cohortYear: Option<int>) {
    && (forall k :: f.answers(k))
    && Cohorts(f, program, cohortYear).Some?
    && forall c :: c in Cohorts(f, program, cohortYear).value ==> f.curriculum(c).Some?
  }

  // ---- What is wanted, written out -----------------------------------------------------------------------

  /** A cohort of some active student; when there is no such student and a program and a year are asked
      for, a stage that their plan has in this term. */
  ghost predicate IsCohort(f: Facts, program: Option<nat>, cohortYear: Option<int>, c: Cohort)
    requires f.students.Some?
  {
    if f.students.value == [] && program.Some? && cohortYear.Some? then
      && c.program == program.value && c.year == cohortYear.value && f.plan(program.value, cohortYear.value).Some?
      && exists i :: 0 <= i < |f.plan(program.value, cohortYear.value).value| &&
           f.plan(program.value, cohortYear.value).value[i] == PlanItem(f.plan(program.value, cohortYear.value).value[i].course, c.stage, f.term)
    else c in f.students.value
  }

  lemma CohortsAre(f: Facts, program: Option<nat>, cohortYear: Option<int>, c: Cohort)
    requires Cohorts(f, program, cohortYear).Some?
    ensures c in Cohorts(f, program, cohortYear).value <==> IsCohort(f, program, cohortYear, c)
  {
    if f.students.value == [] && program.Some? && cohortYear.Some? {
      var items := f.plan(program.value, cohortYear.value).value;
      if item :| item in items && item.term == f.term && c == Cohort(program.value, cohortYear.value, item.stage) {
        var i :| 0 <= i < |items| && items[i] == item;
        assert items[i] == PlanItem(items[i].course, c.stage, f.term);
      }
    }
  }

  /** Day and evening are both wanted, unless just one of them is asked for. */
  predicate ShiftWanted(asked: Option<Shift>, shift: Shift) {
    (shift == Day && asked != Some(Evening)) || (shift == Evening && asked != Some(Day))
  }

  lemma RequiredIff(f: Facts, c: Cohort, shift: Option<Shift>, k: Key)
    ensures k in RequiredBy(f, c, Shifts(shift)) <==>
      k.cohortYear == c.year && ShiftWanted(shift, k.shift) && f.course(k.course) && f.curriculum(c).Some? && k.course in f.curriculum(c).value
  {
    assert k.shift in Shifts(shift) <==> ShiftWanted(shift, k.shift);
    assert k == Key(k.course, k.cohortYear, k.shift);
  }

  /** The course exists and the curriculum of one of these cohorts, of the key's year, requires it. */
  ghost predicate RequiredOf(f: Facts, program: Option<nat>, cohortYear: Option<int>, c: Cohort, k: Key)
    requires f.students.Some?
  {
    && IsCohort(f, program, cohortYear, c) && c.year == k.cohortYear && f.course(k.course)
    && f.curriculum(c).Some? && k.course in f.curriculum(c).value
  }

  /** Wanted is, in every wanted shift, each course that exists and that the curriculum of a cohort of its
      year requires. */
  lemma WantedIff(f: Facts, program: Option<nat>, cohortYear: Option<int>, shift: Option<Shift>, k: Key)
    requires Cohorts(f, program, cohortYear).Some?
    ensures var required := exists c :: RequiredOf(f, program, cohortYear, c, k);
      k in Wanted(f, program, cohortYear, shift) <==> ShiftWanted(shift, k.shift) && required
  {
    var cohorts := Cohorts(f, program, cohortYear).value;
    if k in Wanted(f, program, cohortYear, shift) {
      var c :| c in cohorts && k in RequiredBy(f, c, Shifts(shift));
      CohortsAre(f, program, cohortYear, c);
      RequiredIff(f, c, shift, k);
      assert RequiredOf(f, program, cohortYear, c, k);
    }
    if c :| ShiftWanted(shift, k.shift) && RequiredOf(f, program, cohortYear, c, k) {
      CohortsAre(f, program, cohortYear, c);
      RequiredIff(f, c, shift, k);
      assert k in RequiredByAll(f, cohorts, Shifts(shift));
    }
  }

  /** An offering does not name a program: two cohorts need a common one exactly when they are of
      the same year and their curricula have a course in common that exists. */
  lemma SharedOfferingIff(f: Facts, c: Cohort, d: Cohort, shifts: seq<Shift>)
    requires shifts != [] && f.curriculum(c).Some? && f.curriculum(d).Some?
    ensures RequiredBy(f, c, shifts) * RequiredBy(f, d, shifts) != {} <==>
      c.year == d.year && exists n :: n in f.curriculum(c).value && n in f.curriculum(d).value && f.course(n)
  {
    if n :| c.year == d.year && n in f.curriculum(c).value && n in f.curriculum(d).value && f.course(n) {
      assert shifts[0] in shifts;
      assert Key(n, c.year, shifts[0]) in RequiredBy(f, c, shifts) * RequiredBy(f, d, shifts);
    }
    if RequiredBy(f, c, shifts) * RequiredBy(f, d, shifts) != {} {
      var k :| k in RequiredBy(f, c, shifts) * RequiredBy(f, d, shifts);
      assert k.course in f.curriculum(c).value && k.course in f.curriculum(d).value && f.course(k.course);
    }
  }

  lemma WantedByShift(f: Facts, cohorts: set<Cohort>)
    ensures RequiredByAll(f, cohorts, [Day, Evening]) == RequiredByAll(f, cohorts, [Day]) + RequiredByAll(f, cohorts, [Evening])
  {
    forall c | c in cohorts
      ensures RequiredBy(f, c, [Day, Evening]) == RequiredBy(f, c, [Day]) + RequiredBy(f, c, [Evening])
    {
    }
  }

  /** A run for the day and then one for the evening fill what one run for both fills, and so does a
      run for a shift there is not. */
  lemma ShiftByShift(f: Facts, before: set<Key>, program: Option<nat>, cohortYear: Option<int>, name: string)
    ensures var day := Filled(before, f, Wanted(f, program, cohortYear, Some(Day)));
      Filled(day, f, Wanted(f, program, cohortYear, Some(Evening))) == Filled(before, f, Wanted(f, program, cohortYear, None))
    ensures Wanted(f, program, cohortYear, Some(OtherShift(name))) == Wanted(f, program, cohortYear, None)
  {
    if Cohorts(f, program, cohortYear).Some? {
      WantedByShift(f, Cohorts(f, program, cohortYear).value);
    }
  }

  lemma FilledGrows(before: set<Key>, f: Facts, done: set<Key>, key: Key)
    ensures Filled(before, f, done + {key}) == if f.creates(key) then Filled(before, f, done) + {key} else Filled(before, f, done)
  {
  }

  lemma FilledIsMonotone(before: set<Key>, f: Facts, some: set<Key>, all: set<Key>)
    requires some <= all
    ensures before <= Filled(before, f, some) <= Filled(before, f, all)
  {
  }

  lemma OneMoreCohort(f: Facts, all: set<Cohort>, rest: set<Cohort>, c: Cohort, shifts: seq<Shift>)
    requires c in rest && rest <= all
    ensures RequiredByAll(f, all - (rest - {c}), shifts) == RequiredByAll(f, all - rest, shifts) + RequiredBy(f, c, shifts)
    ensures RequiredByAll(f, all - (rest - {c}), shifts) <= RequiredByAll(f, all, shifts)
  {
    assert all - (rest - {c}) == all - rest + {c};
  }

  /** What becomes of one wanted offering. */
  function Treatment(f: Facts, offerings: set<Key>, key: Key): Outcome {
    if key in offerings then Skipped else if f.creates(key) then Created else Errored
  }

  /** A wanted offering that was there is recorded as skipped, as is one wanted once more, and one the
      store did not take as an error. */
  ghost predicate RestTold(f: Facts, before: set<Key>, done: set<Key>, details: seq<Record>) {
    && (forall k :: Record(k, Errored) in details <==> k in done && k !in before && !f.creates(k))
    && (forall k :: Record(k, Skipped) in details ==> k in done && (k in before || f.creates(k)))
    && (forall k :: k in done && k in before ==> Record(k, Skipped) in details)
  }

  lemma RestGrows(f: Facts, before: set<Key>, done: set<Key>, details: seq<Record>, key: Key)
    requires RestTold(f, before, done, details)
    ensures RestTold(f, before, done + {key}, details + [Record(key, Treatment(f, Filled(before, f, done), key))])
  {
    var record := Record(key, Treatment(f, Filled(before, f, done), key));
    forall r ensures r in details + [record] <==> r in details || r == record {
    }
  }

  // ---- The run --------------------------------------------------------------------------------------------

  class Offerings {
    var offerings: set<Key>
    var created: nat
    var skipped: nat
    var details: seq<Record>

    constructor (offerings: set<Key>)
      ensures this.offerings == offerings && created == 0 && skipped == 0 && details == []
    {
      this.offerings, created, skipped, details := offerings, 0, 0, [];
    }

    /** Each new offering is one Created record, and Created counts them. */
    ghost predicate Told(before: set<Key>)
      reads this
    {
      && created == |offerings - before|
      && (forall k :: k in offerings - before <==> Record(k, Created) in details)
    }

    /** Since before, exactly the keys of done that the store takes have come in. */
    ghost predicate Progress(f: Facts, before: set<Key>, done: set<Key>)
      reads this
    {
      offerings == Filled(before, f, done) && Told(before) && RestTold(f, before, done, details)
    }

    method Tell(key: Key, outcome: Outcome, ghost before: set<Key>)
      requires Told(before) && outcome != Created
      modifies this`details, this`skipped
      ensures Told(before)
      ensures created + skipped - |details| == old(created + skipped - |details|)
      ensures details == old(details) + [Record(key, outcome)] && skipped == old(skipped) + 1
    {
      details := details + [Record(key, outcome)];
      skipped := skipped + 1;
    }

    method Add(key: Key, ghost before: set<Key>)
      requires Told(before) && key !in offerings && before <= offerings
      modifies this
      ensures offerings == old(offerings) + {key} && Told(before)
      ensures details == old(details) + [Record(key, Created)] && created == old(created) + 1 && skipped == old(skipped)
    {
      ghost var added := offerings - before;
      offerings := offerings + {key};
      details := details + [Record(key, Created)];
      created := created + 1;
      assert offerings - before == added + {key};
    }

    method OfferShift(f: Facts, key: Key, ghost before: set<Key>, ghost done: set<Key>) returns (ok: bool)
      requires Progress(f, before, done)
      modifies this
      ensures ok <==> f.answers(key)
      ensures Progress(f, before, if ok then done + {key} else done)
      ensures ok ==> details == old(details) + [Record(key, Treatment(f, old(offerings), key))]
      ensures created + skipped - |details| == old(created + skipped - |details|)
    {
      if !f.answers(key) {
        return false;
      }
      FilledGrows(before, f, done, key);
      RestGrows(f, before, done, details, key);
      if key in offerings {
        Tell(key, Skipped, before);
      } else if !f.creates(key) {
        Tell(key, Errored, before);
      } else {
        Add(key, before);
      }
      return true;
    }

    method OfferCourse(f: Facts, c: Cohort, course: nat, shifts: seq<Shift>, ghost before: set<Key>, ghost done: set<Key>)
      returns (ok: bool, ghost now: set<Key>)
      requires Progress(f, before, done)
      modifies this
      ensures Progress(f, before, now) && done <= now
      ensures ok ==> now == done + if f.course(course) then Offered(c, course, shifts) else {}
      ensures forall k :: k in now - done ==> k.course == course && k.cohortYear == c.year && k.shift in shifts && f.course(course)
      ensures (forall k :: f.answers(k)) ==> ok
      ensures created + skipped - |details| == old(created + skipped - |details|) + if f.course(course) then 0 else 1
    {
      now := done;
      if !f.course(course) {
        skipped := skipped + 1;
        return true, now;
      }
      for i := 0 to |shifts|
        invariant Progress(f, before, now)
        invariant created + skipped - |details| == old(created + skipped - |details|)
        invariant now == done + Offered(c, course, shifts[..i])
      {
        OneMoreShift(c, course, shifts, i);
        var key := Key(course, c.year, shifts[i]);
        ok := OfferShift(f, key, before, now);
        if !ok {
          return false, now;
        }
        now := now + {key};
      }
      assert shifts[..|shifts|] == shifts;
      return true, now;
    }

    method OfferCohort(f: Facts, c: Cohort, shifts: seq<Shift>, ghost before: set<Key>, ghost done: set<Key>)
      returns (ok: bool, ghost now: set<Key>)
      requires Progress(f, before, done)
      modifies this
      ensures Progress(f, before, now) && done <= now <= done + RequiredBy(f, c, shifts)
      ensures ok ==> f.curriculum(c).Some? && now == done + RequiredBy(f, c, shifts)
      ensures f.curriculum(c).Some? && (forall k :: f.answers(k)) ==> ok
    {
      now := done;
      var curriculum := f.curriculum(c);
      if curriculum.None? {
        return false, now;
      }
      var courses := curriculum.value;
      for i := 0 to |courses|
        invariant Progress(f, before, now)
        invariant done <= now
        invariant forall k :: k in now <==> k in done || (k.course in courses[..i] && Requires(f, c, shifts, k))
      {
        assert courses[..i + 1] == courses[..i] + [courses[i]];
        ghost var sofar := now;
        ok, now := OfferCourse(f, c, courses[i], shifts, before, sofar);
        if !ok {
          return false, now;
        }
      }
      assert courses[..|courses|] == courses;
      return true, now;
    }

    /** The cohorts are a set that is taken apart in any order. Whatever the order, the offerings
        afterwards are those before and all the curriculum requires, save the inserts the store
        fails, and Created is how many are new. A failed lookup stops the run part-way. */
    method Generate(f: Facts, status: SemesterStatus, program: Option<nat>, cohortYear: Option<int>, shift: Option<Shift>)
      returns (r: Result<(), Error>)
      modifies this
      ensures status != Upcoming && status != Active ==> r == Failure(SemesterNotActive) && offerings == old(offerings)
      ensures r.Success? ==> offerings == Filled(old(offerings), f, Wanted(f, program, cohortYear, shift))
      ensures r.Success? ==> Told(old(offerings)) && RestTold(f, old(offerings), Wanted(f, program, cohortYear, shift), details)
      ensures old(offerings) <= offerings <= Filled(old(offerings), f, Wanted(f, program, cohortYear, shift))
      ensures (status == Upcoming || status == Active) && AllAnswer(f, program, cohortYear) ==> r.Success?
    {
      if status != Upcoming && status != Active {
        return Failure(SemesterNotActive);
      }
      var cohorts := Cohorts(f, program, cohortYear);
      if cohorts.None? {
        return Failure(LookupFailed);
      }
      created, skipped, details := 0, 0, [];
      ghost var before, done := offerings, {};
      assert offerings - before == {};
      var shifts := Shifts(shift);
      var rest := cohorts.value;
      while rest != {}
        invariant rest <= cohorts.value
        invariant Progress(f, before, done)
        invariant done == RequiredByAll(f, cohorts.value - rest, shifts)
        decreases |rest|
      {
        var c :| c in rest;
        ghost var sofar := done;
        var ok;
        ok, done := OfferCohort(f, c, shifts, before, sofar);
        OneMoreCohort(f, cohorts.value, rest, c, shifts);
        if !ok {
          FilledIsMonotone(before, f, done, RequiredByAll(f, cohorts.value, shifts));
          return Failure(LookupFailed);
        }
        rest := rest - {c};
      }
      assert cohorts.value - {} == cohorts.value;
      return Success(());
    }

    /** A second run creates nothing: neither a new offering nor a Created record. */
    method GenerateTwice(f: Facts, status: SemesterStatus, program: Option<nat>, cohortYear: Option<int>, shift: Option<Shift>)
      returns (first: Result<(), Error>, second: Result<(), Error>, between: set<Key>)
      modifies this
      ensures first.Success? && second.Success? ==> created == 0 && offerings == between
      ensures first.Success? ==> offerings == between == Filled(old(offerings), f, Wanted(f, program, cohortYear, shift))
    {
      first := Generate(f, status, program, cohortYear, shift);
      between := offerings;
      second := Generate(f, status, program, cohortYear, shift);
      assert first.Success? ==> offerings - between == {};
    }
  }
}
