/** Shapes shared by every part of the model. */
module Common {

  datatype Option<+T> = None | Some(value: T)

  datatype Result<+T, +E> = Ok(value: T) | Err(error: E)

  /** No value occurs twice. */
  ghost predicate Distinct<T>(s: seq<T>) {
    forall i, j :: 0 <= i < j < |s| ==> s[i] != s[j]
  }

  function SetOf<T>(s: seq<T>): set<T> {
    set x | x in s
  }

  lemma SetOfAppend<T>(s: seq<T>, x: T)
    ensures SetOf(s + [x]) == SetOf(s) + {x}
    ensures Distinct(s) && x !in s ==> Distinct(s + [x])
  {
  }

  /** The values of a list, each once, in the order in which they first occur. */
  function FirstSeen<T(==)>(s: seq<T>): seq<T> {
    if s == [] then []
    else
      var before, last := FirstSeen(s[..|s| - 1]), s[|s| - 1];
      if last in before then before else before + [last]
  }

  lemma {:induction false} FirstSeenMeaning<T>(s: seq<T>)
    ensures Distinct(FirstSeen(s)) && SetOf(FirstSeen(s)) == SetOf(s)
    ensures forall x :: x in FirstSeen(s) <==> x in s
  {
    if s != [] {
      var init, last := s[..|s| - 1], s[|s| - 1];
      FirstSeenMeaning(init);
      assert s == init + [last];
      SetOfAppend(init, last);
    }
  }

  /** The elements with a given key, in order. */
  function GroupBy<T, K(==)>(s: seq<T>, key: T -> K, k: K): seq<T> {
    if s == [] then [] else (if key(s[0]) == k then [s[0]] else []) + GroupBy(s[1..], key, k)
  }

  lemma {:induction false} GroupByAppend<T, K>(s: seq<T>, key: T -> K, k: K, x: T)
    ensures GroupBy(s + [x], key, k) == GroupBy(s, key, k) + (if key(x) == k then [x] else [])
  {
    if s == [] {
      assert s + [x] == [x] && [x][1..] == [];
    } else {
      assert (s + [x])[1..] == s[1..] + [x];
      GroupByAppend(s[1..], key, k, x);
      var head, last := if key(s[0]) == k then [s[0]] else [], if key(x) == k then [x] else [];
      assert head + (GroupBy(s[1..], key, k) + last) == head + GroupBy(s[1..], key, k) + last;
    }
  }

  lemma {:induction false} GroupByMembers<T, K>(s: seq<T>, key: T -> K, k: K, x: T)
    ensures x in GroupBy(s, key, k) <==> x in s && key(x) == k
  {
    if s != [] {
      GroupByMembers(s[1..], key, k, x);
      assert s == [s[0]] + s[1..];
    }
  }

  lemma {:induction false} GroupByNothing<T, K>(s: seq<T>, key: T -> K, k: K)
    requires forall x :: x in s ==> key(x) != k
    ensures GroupBy(s, key, k) == []
  {
    if s != [] {
      assert s[0] in s;
      GroupByNothing(s[1..], key, k);
    }
  }

  /** A set of positions that may have gained the next one. */
  lemma OneMorePosition(before: set<nat>, after: set<nat>, n: nat, gained: bool)
    requires n !in before && forall i :: i in after <==> i in before || (i == n && gained)
    ensures |after| == |before| + (if gained then 1 else 0)
  {
    assert after == before + (if gained then {n} else {});
  }

  lemma {:induction false} DistinctCardinality<T>(s: seq<T>)
    requires Distinct(s)
    ensures |SetOf(s)| == |s|
  {
    if s == [] {
      assert SetOf(s) == {};
    } else {
      var last := |s| - 1;
      DistinctCardinality(s[..last]);
      assert s == s[..last] + [s[last]];
      assert SetOf(s) == SetOf(s[..last]) + {s[last]};
    }
  }

  /** Dropping repetitions never makes a list longer. */
  lemma {:induction false} SetOfCardinality<T>(s: seq<T>)
    ensures |SetOf(s)| <= |s|
    ensures |SetOf(s)| == |s| ==> Distinct(s)
  {
    if s == [] {
      assert SetOf(s) == {};
    } else {
      var last := |s| - 1;
      SetOfCardinality(s[..last]);
      assert s == s[..last] + [s[last]];
      assert SetOf(s) == SetOf(s[..last]) + {s[last]};
    }
  }

  lemma {:induction false} SubsetCardinality<T>(a: set<T>, b: set<T>)
    requires a <= b
    ensures |a| <= |b|
    decreases |a|
  {
    if a != {} {
      var x :| x in a;
      SubsetCardinality(a - {x}, b - {x});
    }
  }
}
