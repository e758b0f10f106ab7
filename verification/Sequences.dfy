/** Sequences as enumerations, selections and ordered lists. */
module Sequences {
  predicate Ascending(s: seq<int>) {
    forall i, j :: 0 <= i < j < |s| ==> s[i] <= s[j]
  }

  /** The sequence lists exactly the values inside, each once. */
  ghost predicate Lists<T(!new)>(s: seq<T>, inside: T -> bool) {
    && (forall i, j :: 0 <= i < j < |s| ==> s[i] != s[j])
    && (forall x :: x in s <==> inside(x))
  }

  lemma ListsConcat<T(!new)>(s: seq<T>, t: seq<T>, inS: T -> bool, inT: T -> bool, inside: T -> bool)
    requires Lists(s, inS) && Lists(t, inT)
    requires forall x :: !(inS(x) && inT(x))
    requires forall x :: inside(x) <==> inS(x) || inT(x)
    ensures Lists(s + t, inside)
  {
    var all := s + t;
    forall i, j | 0 <= i < j < |all| ensures all[i] != all[j] {
      if i < |s| <= j {
        assert all[i] in s && all[j] in t;
      }
    }
  }

  /** The elements that `p` selects, in order. */
  function Filter<T(!new)>(s: seq<T>, p: T -> bool): (t: seq<T>)
    ensures forall x :: x in t <==> x in s && p(x)
  {
    if s == [] then [] else Filter(s[..|s| - 1], p) + if p(s[|s| - 1]) then [s[|s| - 1]] else []
  }

  lemma {:induction false} FilterFront<T(!new)>(s: seq<T>, p: T -> bool)
    requires s != []
    ensures Filter(s, p) == (if p(s[0]) then [s[0]] else []) + Filter(s[1..], p)
  {
    var n := |s| - 1;
    if n > 0 {
      FilterFront(s[..n], p);
      assert s[..n][1..] == s[1..][..n - 1];
    } else {
      assert s[..0] == [] && s[1..] == [];
    }
  }

  /** The sequence without the first occurrence of `x`. */
  function RemoveFirst<T(==)>(s: seq<T>, x: T): seq<T> {
    if s == [] then []
    else if s[0] == x then s[1..]
    else [s[0]] + RemoveFirst(s[1..], x)
  }

  lemma SplitLast<T>(s: seq<T>)
    requires s != []
    ensures s == s[..|s| - 1] + [s[|s| - 1]]
  {
  }
}
