/** The list operations a user's pet list goes through: `ArrayList.add`
    (append) and `ArrayList.remove(Object)` (drop the first equal entry), over
    pet ids. */
module Lists {

  /** No id occurs twice. */
  predicate Distinct(s: seq<int>) {
    forall i, j :: 0 <= i < j < |s| ==> s[i] != s[j]
  }

  function Elems(s: seq<int>): set<int> {
    set x | x in s
  }

  /** `list.remove(x)`: the list without its first occurrence of `x`, or the
      list itself when `x` does not occur. */
  function RemoveFirst(s: seq<int>, x: int): (r: seq<int>)
    ensures multiset(r) == multiset(s) - multiset{x}
  {
    if s == [] then []
    else if s[0] == x then
      assert s == [s[0]] + s[1..];
      s[1..]
    else
      assert s == [s[0]] + s[1..];
      [s[0]] + RemoveFirst(s[1..], x)
  }

  /** On a list without duplicates, removing `x` leaves exactly the other
      elements, still without duplicates. */
  lemma {:induction false} RemoveFirstDistinct(s: seq<int>, x: int)
    requires Distinct(s)
    ensures Distinct(RemoveFirst(s, x))
    ensures forall y :: y in RemoveFirst(s, x) <==> y in s && y != x
  {
    if s != [] {
      var t := s[1..];
      assert Distinct(t);
      RemoveFirstDistinct(t, x);
      if s[0] != x {
        var r := RemoveFirst(t, x);
        assert s[0] !in t;
        assert s[0] !in r;
        assert RemoveFirst(s, x) == [s[0]] + r;
        DistinctCons(s[0], r);
      } else {
        assert x !in t;
      }
    }
  }

  /** Removing an element the list does not hold leaves the list as it is. */
  lemma {:induction false} RemoveAbsent(s: seq<int>, x: int)
    requires x !in s
    ensures RemoveFirst(s, x) == s
  {
    if s != [] {
      assert s[0] != x;
      assert x !in s[1..];
      RemoveAbsent(s[1..], x);
      assert s == [s[0]] + s[1..];
    }
  }

  /** Removal takes out the first occurrence only: the entries before and
      after it keep their order. */
  lemma {:induction false} RemoveFirstOccurrence(s: seq<int>, x: int, k: nat)
    requires k < |s| && s[k] == x && x !in s[..k]
    ensures RemoveFirst(s, x) == s[..k] + s[k + 1..]
  {
    if k > 0 {
      assert s[0] == s[..k][0];
      assert s[1..][k - 1] == x;
      assert s[1..][..k - 1] == s[..k][1..];
      assert x !in s[1..][..k - 1];
      RemoveFirstOccurrence(s[1..], x, k - 1);
      assert s[1..][k - 1 + 1..] == s[k + 1..];
      assert s[..k] == [s[0]] + s[1..][..k - 1];
    }
  }

  lemma DistinctCons(x: int, s: seq<int>)
    requires Distinct(s) && x !in s
    ensures Distinct([x] + s)
  {
    var t := [x] + s;
    forall i, j | 0 <= i < j < |t| ensures t[i] != t[j] {
      if i > 0 {
        assert t[i] == s[i - 1] && t[j] == s[j - 1];
      } else {
        assert t[j] == s[j - 1];
      }
    }
  }

  /** Appending an id the list does not hold keeps it free of duplicates. */
  lemma DistinctAppend(s: seq<int>, x: int)
    requires Distinct(s) && x !in s
    ensures Distinct(s + [x])
  {
  }

  /** A list without duplicates has as many entries as distinct elements. */
  lemma {:induction false} DistinctCardinality(s: seq<int>)
    requires Distinct(s)
    ensures |Elems(s)| == |s|
  {
    if s != [] {
      var t := s[1..];
      assert Distinct(t);
      DistinctCardinality(t);
      assert s[0] !in t;
      assert Elems(s) == {s[0]} + Elems(t);
    }
  }
}
