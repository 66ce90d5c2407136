/** Lists without repeats, their elements, and how many there are. */
module Collections {

  predicate NoRepeats<T(==)>(s: seq<T>) { forall i, j :: 0 <= i < j < |s| ==> s[i] != s[j] }

  function Elements<T(==)>(s: seq<T>): set<T> { set x | x in s }

  lemma ElementsJoin<T>(a: seq<T>, b: seq<T>)
    ensures Elements(a + b) == Elements(a) + Elements(b)
  {
  }

  lemma {:induction false} SubsetIsSmaller<T>(a: set<T>, b: set<T>)
    requires a <= b
    ensures |a| <= |b|
    decreases a
  {
    if a != {} {
      var x :| x in a;
      SubsetIsSmaller(a - {x}, b - {x});
    }
  }

  lemma SubsetOfSameSize<T>(a: set<T>, b: set<T>)
    requires a <= b && |a| >= |b|
    ensures a == b
  {
    if b - a != {} {
      var x :| x in b - a;
      SubsetIsSmaller(a, b - {x});
    }
    assert b <= a;
  }

  lemma {:induction false} SizeOfElements<T>(s: seq<T>)
    ensures |Elements(s)| <= |s|
    ensures |Elements(s)| == |s| <==> NoRepeats(s)
    decreases |s|
  {
    if s != [] {
      var front, last := s[..|s| - 1], s[|s| - 1];
      SizeOfElements(front);
      assert Elements(s) == Elements(front) + {last} by {
        assert s == front + [last];
        ElementsJoin(front, [last]);
        assert Elements([last]) == {last};
      }
      RepeatsAtTheEnd(front, last);
      assert s == front + [last];
    }
  }

  lemma RepeatsAtTheEnd<T>(front: seq<T>, last: T)
    ensures NoRepeats(front + [last]) <==> NoRepeats(front) && last !in front
  {
    var s := front + [last];
    if NoRepeats(s) {
      forall i, j | 0 <= i < j < |front| ensures front[i] != front[j] {
        assert s[i] != s[j];
      }
      forall i | 0 <= i < |front| ensures front[i] != last {
        assert s[i] != s[|front|];
      }
    }
  }
}
