/** Sequence helpers shared by the scripts and the C# classes: lists without
    repeats, ascending lists of point numbers, `list.remove` / `List.Remove`,
    and the integer minimum. */
module Common {

  predicate Distinct<T(==)>(s: seq<T>) {
    forall i, j :: 0 <= i < j < |s| ==> s[i] != s[j]
  }

  lemma ConsDistinct<T>(x: T, s: seq<T>)
    requires Distinct(s) && x !in s
    ensures Distinct([x] + s)
  {
    var t := [x] + s;
    forall a, b | 0 <= a < b < |t| ensures t[a] != t[b] {
      assert t[b] == s[b - 1];
      if a > 0 {
        assert t[a] == s[a - 1];
      }
    }
  }

  /** Two distinct lists with no common element join into a distinct list. */
  lemma ConcatDistinct<T>(a: seq<T>, b: seq<T>)
    requires Distinct(a) && Distinct(b) && forall x :: x in a ==> x !in b
    ensures Distinct(a + b)
  {
    var t := a + b;
    forall i, j | 0 <= i < j < |t| ensures t[i] != t[j] {
      if j < |a| {
        assert t[i] == a[i] && t[j] == a[j];
      } else if i >= |a| {
        assert t[i] == b[i - |a|] && t[j] == b[j - |a|];
      } else {
        assert t[i] == a[i] && t[j] == b[j - |a|];
        assert a[i] in a;
      }
    }
  }

  /** Strictly ascending point numbers, as a scan in point order yields them. */
  predicate Increasing(s: seq<nat>) {
    forall i, j :: 0 <= i < j < |s| ==> s[i] < s[j]
  }

  lemma IncreasingDistinct(s: seq<nat>)
    requires Increasing(s)
    ensures Distinct(s)
  {
  }

  /** `list.remove(x)` and `List.Remove(x)`: drops the first occurrence of x,
      and nothing when x is absent (where Python would raise, every caller
      here removes a listed value or tolerates a no-op). */
  function RemoveFirst<T(==)>(s: seq<T>, x: T): (r: seq<T>)
    ensures x !in s ==> r == s
    ensures x in s ==> |r| == |s| - 1
    ensures forall y :: y in r ==> y in s
  {
    if |s| == 0 then []
    else
      assert s == [s[0]] + s[1..];
      if s[0] == x then s[1..]
      else [s[0]] + RemoveFirst(s[1..], x)
  }

  /** Removing x takes away exactly one copy of x and nothing else, and
      nothing at all when x is absent. */
  lemma {:induction false} RemoveFirstCounts<T>(s: seq<T>, x: T)
    ensures multiset(RemoveFirst(s, x)) == multiset(s) - multiset{x}
    decreases |s|
  {
    if |s| > 0 {
      assert s == [s[0]] + s[1..];
      if s[0] != x {
        RemoveFirstCounts(s[1..], x);
        assert RemoveFirst(s, x) == [s[0]] + RemoveFirst(s[1..], x);
      }
    }
  }

  /** A suffix of a list without repeats has none, and the head is not in it. */
  lemma TailDistinct<T>(s: seq<T>)
    requires Distinct(s) && |s| > 0
    ensures Distinct(s[1..]) && s[0] !in s[1..]
  {
    var tail := s[1..];
    forall i, j | 0 <= i < j < |tail| ensures tail[i] != tail[j] {
      assert tail[i] == s[i + 1] && tail[j] == s[j + 1];
    }
    forall i | 0 <= i < |tail| ensures tail[i] != s[0] {
      assert tail[i] == s[i + 1];
    }
  }

  /** On a list without repeats, removing x removes its only copy, keeps
      every other element and leaves a list without repeats. */
  lemma {:induction false} RemoveFirstDistinct<T>(s: seq<T>, x: T)
    requires Distinct(s)
    ensures var r := RemoveFirst(s, x);
      x !in r && Distinct(r) && forall u :: u != x ==> (u in r <==> u in s)
    decreases |s|
  {
    var r := RemoveFirst(s, x);
    RemoveFirstCounts(s, x);
    forall u | u != x
      ensures u in r <==> u in s
    {
      assert multiset(r)[u] == multiset(s)[u];
    }
    if |s| > 0 {
      TailDistinct(s);
      if s[0] != x {
        RemoveFirstDistinct(s[1..], x);
        ConsDistinct(s[0], RemoveFirst(s[1..], x));
      }
    }
  }

  /** A rearrangement of a list without repeats has none. */
  lemma {:induction false} PermutationDistinct<T>(s: seq<T>, r: seq<T>)
    requires Distinct(s) && multiset(r) == multiset(s)
    ensures Distinct(r)
    decreases |r|
  {
    if |r| > 0 {
      var x := r[|r| - 1];
      var init := r[..|r| - 1];
      assert r == init + [x];
      var rest := RemoveFirst(s, x);
      RemoveFirstCounts(s, x);
      RemoveFirstDistinct(s, x);
      assert multiset(init) == multiset(rest);
      PermutationDistinct(rest, init);
      assert x !in init;
      ConcatDistinct(init, [x]);
    }
  }

  /** On an ascending list, removing v keeps it ascending, removes v and
      keeps every other value. */
  lemma {:induction false} RemoveFirstIncreasing(s: seq<nat>, v: nat)
    requires Increasing(s)
    ensures var r := RemoveFirst(s, v);
      Increasing(r) && v !in r && forall x :: x in s && x != v ==> x in r
    decreases |s|
  {
    if |s| > 0 {
      IncreasingTail(s);
      assert s == [s[0]] + s[1..];
      if s[0] != v {
        RemoveFirstIncreasing(s[1..], v);
        IncreasingCons(s[0], RemoveFirst(s[1..], v));
      }
    }
  }

  /** The tail of an ascending list is ascending and above its head. */
  lemma IncreasingTail(s: seq<nat>)
    requires Increasing(s) && |s| > 0
    ensures Increasing(s[1..]) && forall x :: x in s[1..] ==> s[0] < x
  {
    var tail := s[1..];
    forall i, j | 0 <= i < j < |tail| ensures tail[i] < tail[j] {
      assert tail[i] == s[i + 1] && tail[j] == s[j + 1];
    }
    forall x | x in tail ensures s[0] < x {
      var k :| 0 <= k < |tail| && tail[k] == x;
      assert tail[k] == s[k + 1];
    }
  }

  /** A value below every element of an ascending list heads an ascending list. */
  lemma IncreasingCons(x: nat, s: seq<nat>)
    requires Increasing(s) && forall y :: y in s ==> x < y
    ensures Increasing([x] + s)
  {
    var r := [x] + s;
    forall i, j | 0 <= i < j < |r| ensures r[i] < r[j] {
      assert r[j] == s[j - 1] && s[j - 1] in s;
      if i > 0 {
        assert r[i] == s[i - 1];
      }
    }
  }

  /** `Math.Min` and Python's `min` on integers. */
  function Min(a: int, b: int): int { if a <= b then a else b }
}
