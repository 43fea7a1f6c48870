/**
 * Positional list operations the edit buffer relies on: removing and
 * inserting one position (QVector::remove, QVector::insert, QgsFields::remove)
 * and the declarative meaning of removing a whole set of positions.
 */
module Positions {

  /** The list with position i taken out. */
  function RemoveAt<T>(s: seq<T>, i: nat): (r: seq<T>)
    requires i < |s|
    ensures |r| == |s| - 1
    ensures forall j :: 0 <= j < i ==> r[j] == s[j]
    ensures forall j :: i <= j < |r| ==> r[j] == s[j + 1]
  {
    s[..i] + s[i + 1..]
  }

  /** The list with x inserted before position i. */
  function InsertAt<T>(s: seq<T>, i: nat, x: T): (r: seq<T>)
    requires i <= |s|
    ensures |r| == |s| + 1 && r[i] == x
    ensures forall j :: 0 <= j < i ==> r[j] == s[j]
    ensures forall j :: i < j < |r| ==> r[j] == s[j - 1]
  {
    s[..i] + [x] + s[i..]
  }

  /** Taking out a position just inserted gives back the list. */
  lemma RemoveInserted<T>(s: seq<T>, i: nat, x: T)
    requires i <= |s|
    ensures RemoveAt(InsertAt(s, i, x), i) == s
  {
    var r := RemoveAt(InsertAt(s, i, x), i);
    assert |r| == |s|;
    forall j | 0 <= j < |s| ensures r[j] == s[j] { }
  }

  function Elements(s: seq<int>): set<int>
  {
    set x | x in s
  }

  predicate StrictlyIncreasing(s: seq<int>)
  {
    forall i, j :: 0 <= i < j < |s| ==> s[i] < s[j]
  }

  /** A strictly increasing list has as many distinct elements as positions. */
  lemma {:induction false} IncreasingElements(s: seq<int>)
    requires StrictlyIncreasing(s)
    ensures |Elements(s)| == |s|
  {
    if s == [] {
      assert forall x :: x !in Elements(s);
      assert Elements(s) == {};
    } else {
      var t := s[1..];
      assert StrictlyIncreasing(t) by {
        forall i, j | 0 <= i < j < |t| ensures t[i] < t[j] { assert t[i] == s[i + 1] && t[j] == s[j + 1]; }
      }
      IncreasingElements(t);
      assert s == [s[0]] + t;
      assert Elements(s) == {s[0]} + Elements(t);
      assert s[0] !in Elements(t);
    }
  }

  /** The elements of s whose positions are not in dels, in their order:
      what remains of a list once every position in dels is removed. */
  function Surviving<T>(s: seq<T>, dels: set<int>): (r: seq<T>)
    ensures |r| <= |s|
  {
    if s == [] then []
    else Surviving(s[..|s| - 1], dels) + (if |s| - 1 in dels then [] else [s[|s| - 1]])
  }

  /** Only the positions that exist in s matter. */
  lemma {:induction false} SurvivingOnlyInRange<T>(s: seq<T>, d: set<int>, e: set<int>)
    requires forall x :: 0 <= x < |s| ==> (x in d <==> x in e)
    ensures Surviving(s, d) == Surviving(s, e)
  {
    if s != [] {
      SurvivingOnlyInRange(s[..|s| - 1], d, e);
    }
  }

  /** Removing positions that all lie inside the list shortens it by their number. */
  lemma {:induction false} SurvivingLength<T>(s: seq<T>, dels: set<int>)
    requires forall x :: x in dels ==> 0 <= x < |s|
    ensures |Surviving(s, dels)| == |s| - |dels|
  {
    if s != [] {
      var n := |s| - 1;
      var rest := dels - {n};
      SurvivingOnlyInRange(s[..n], dels, rest);
      SurvivingLength(s[..n], rest);
      assert Surviving(s, dels) == Surviving(s[..n], dels) + (if n in dels then [] else [s[n]]);
      assert |Surviving(s[..n], dels)| == n - |rest|;
      if n in dels {
        assert dels == rest + {n};
        assert |dels| == |rest| + 1;
        assert |Surviving(s, dels)| == n - |rest|;
      } else {
        assert rest == dels;
        assert |Surviving(s, dels)| == n - |rest| + 1;
      }
    } else {
      assert forall x :: x !in dels;
      assert dels == {};
    }
  }

  /** With no position to remove inside the list, nothing is removed. */
  lemma {:induction false} SurvivingNone<T>(s: seq<T>, dels: set<int>)
    requires forall d :: d in dels ==> d >= |s|
    ensures Surviving(s, dels) == s
  {
    if s != [] {
      SurvivingNone(s[..|s| - 1], dels);
      assert s[..|s| - 1] + [s[|s| - 1]] == s;
    }
  }

  /** Surviving unfolded once at the end of the list. */
  lemma SurvivingLast<T>(s: seq<T>, dels: set<int>)
    requires s != []
    ensures Surviving(s, dels) ==
            Surviving(s[..|s| - 1], dels) + (if |s| - 1 in dels then [] else [s[|s| - 1]])
  {
  }

  /** When no position up to k is removed, the survivors start with s[..k + 1]. */
  lemma {:induction false} SurvivingPrefix<T>(s: seq<T>, dels: set<int>, k: nat)
    requires k < |s|
    requires forall d :: d in dels ==> k < d
    ensures |Surviving(s, dels)| > k
    ensures Surviving(s, dels)[..k + 1] == s[..k + 1]
  {
    var n := |s| - 1;
    SurvivingLast(s, dels);
    if n == k {
      SurvivingNone(s[..n], dels);
      assert s[..n] + [s[n]] == s;
    } else {
      SurvivingPrefix(s[..n], dels, k);
      var tail := if n in dels then [] else [s[n]];
      AppendKeepsPrefix(Surviving(s[..n], dels), tail, k + 1);
      assert s[..n][..k + 1] == s[..k + 1];
    }
  }

  /** Removing position k from what survives dels, when k lies below every
      position of dels, is the same as letting k go along with dels. */
  lemma {:induction false} SurvivingRemoveBelow<T>(s: seq<T>, dels: set<int>, k: nat)
    requires k < |s|
    requires forall d :: d in dels ==> k < d
    ensures |Surviving(s, dels)| > k
    ensures Surviving(s, dels + {k}) == RemoveAt(Surviving(s, dels), k)
  {
    var n := |s| - 1;
    SurvivingPrefix(s, dels, k);
    SurvivingLast(s, dels);
    SurvivingLast(s, dels + {k});
    if n == k {
      SurvivingNone(s[..n], dels);
      SurvivingNone(s[..n], dels + {k});
      assert s[..n] + [s[n]] == s;
    } else {
      SurvivingRemoveBelow(s[..n], dels, k);
      var tail := if n in dels then [] else [s[n]];
      assert n in dels + {k} <==> n in dels;
      RemoveAtAppend(Surviving(s[..n], dels), tail, k);
    }
  }

  lemma AppendKeepsPrefix<T>(x: seq<T>, y: seq<T>, n: nat)
    requires n <= |x|
    ensures (x + y)[..n] == x[..n]
  {
  }

  lemma RemoveAtAppend<T>(x: seq<T>, y: seq<T>, k: nat)
    requires k < |x|
    ensures RemoveAt(x + y, k) == RemoveAt(x, k) + y
  {
    assert (x + y)[..k] == x[..k];
    assert (x + y)[k + 1..] == x[k + 1..] + y;
  }

  /** A non-empty set has an element. */
  lemma HasElement(s: set<int>)
    requires s != {}
    ensures exists k :: k in s
  {
    if forall k :: k !in s {
      assert false;
    }
  }

  /** A non-empty set of integers has a least element. */
  lemma {:induction false} SmallestExists(s: set<int>)
    requires s != {}
    ensures exists k :: k in s && forall j :: j in s ==> k <= j
    decreases |s|
  {
    HasElement(s);
    var x :| x in s;
    if y :| y in s && y != x {
      var others := s - {x};
      assert y in others;
      SmallestExists(others);
      var z :| z in others && forall j :: j in others ==> z <= j;
      assert forall j :: j in s ==> j == x || j in others;
      if x < z {
        assert forall j :: j in s ==> x <= j;
      } else {
        assert z in s && forall j :: j in s ==> z <= j;
      }
    } else {
      assert forall j :: j in s ==> x <= j;
    }
  }

  /** A non-empty set of integers has a greatest element. */
  lemma {:induction false} LargestExists(s: set<int>)
    requires s != {}
    ensures exists k :: k in s && forall j :: j in s ==> j <= k
    decreases |s|
  {
    HasElement(s);
    var x :| x in s;
    if y :| y in s && y != x {
      var others := s - {x};
      assert y in others;
      LargestExists(others);
      var z :| z in others && forall j :: j in others ==> j <= z;
      assert forall j :: j in s ==> j == x || j in others;
      if x > z {
        assert forall j :: j in s ==> j <= x;
      } else {
        assert z in s && forall j :: j in s ==> j <= z;
      }
    } else {
      assert forall j :: j in s ==> j <= x;
    }
  }
}
