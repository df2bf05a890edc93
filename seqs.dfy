/** Order-preserving list comprehensions and linear search, as the ETL code writes them. */
module Seqs {

  /** The set of elements of `s` (Python's `set(s)`, or `c in s` as a membership test). */
  function Elements<T>(s: seq<T>): set<T> {
    set x | x in s
  }

  /** Appending one element adds exactly that element to the set of elements. */
  lemma {:induction false} ElementsSnoc<T>(s: seq<T>, x: T)
    ensures Elements(s + [x]) == Elements(s) + {x}
  {
  }

  /** `[x for x in s if x in keep]` */
  function Select<T(!new)>(s: seq<T>, keep: set<T>): (r: seq<T>)
    ensures forall x :: x in r <==> x in s && x in keep
    ensures |r| <= |s|
    decreases |s|
  {
    if |s| == 0 then []
    else Select(s[..|s| - 1], keep) + (if s[|s| - 1] in keep then [s[|s| - 1]] else [])
  }

  /** `[x for x in s if x not in drop]` */
  function Exclude<T(!new)>(s: seq<T>, drop: set<T>): (r: seq<T>)
    ensures forall x :: x in r <==> x in s && x !in drop
    ensures |r| <= |s|
    decreases |s|
  {
    if |s| == 0 then []
    else Exclude(s[..|s| - 1], drop) + (if s[|s| - 1] !in drop then [s[|s| - 1]] else [])
  }

  /** `a` is `b` with some elements left out and the rest in their order. */
  ghost predicate IsSubsequence<T>(a: seq<T>, b: seq<T>)
    decreases |b|
  {
    |a| <= |b| &&
    (|a| == 0
     || (a[|a| - 1] == b[|b| - 1] && IsSubsequence(a[..|a| - 1], b[..|b| - 1]))
     || IsSubsequence(a, b[..|b| - 1]))
  }

  /** A comprehension over `s` keeps the order of `s`. */
  lemma {:induction false} SelectIsSubsequence<T(!new)>(s: seq<T>, keep: set<T>)
    ensures IsSubsequence(Select(s, keep), s)
    decreases |s|
  {
    if |s| > 0 {
      var init := s[..|s| - 1];
      var r := Select(s, keep);
      SelectIsSubsequence(init, keep);
      if s[|s| - 1] in keep {
        assert r[..|r| - 1] == Select(init, keep);
      } else {
        assert r == Select(init, keep);
      }
    }
  }

  lemma {:induction false} ExcludeIsSubsequence<T(!new)>(s: seq<T>, drop: set<T>)
    ensures IsSubsequence(Exclude(s, drop), s)
    decreases |s|
  {
    if |s| > 0 {
      var init := s[..|s| - 1];
      var r := Exclude(s, drop);
      ExcludeIsSubsequence(init, drop);
      if s[|s| - 1] !in drop {
        assert r[..|r| - 1] == Exclude(init, drop);
      } else {
        assert r == Exclude(init, drop);
      }
    }
  }

  /** Filtering a concatenation filters each part in turn. */
  lemma {:induction false} ExcludeAppend<T(!new)>(a: seq<T>, b: seq<T>, drop: set<T>)
    ensures Exclude(a + b, drop) == Exclude(a, drop) + Exclude(b, drop)
    decreases |b|
  {
    if |b| == 0 {
      assert a + b == a;
    } else {
      var init, last := b[..|b| - 1], b[|b| - 1];
      var tail := if last !in drop then [last] else [];
      assert (a + b)[..|a + b| - 1] == a + init;
      assert (a + b)[|a + b| - 1] == last;
      calc {
        Exclude(a + b, drop);
        Exclude(a + init, drop) + tail;
        { ExcludeAppend(a, init, drop); }
        Exclude(a, drop) + Exclude(init, drop) + tail;
        Exclude(a, drop) + (Exclude(init, drop) + tail);
        Exclude(a, drop) + Exclude(b, drop);
      }
    }
  }

  /** `s[:i] + ins + s[i + 1:]`: `ins` in place of the element at `i`. */
  function SpliceAt<T>(s: seq<T>, i: nat, ins: seq<T>): seq<T>
    requires i < |s|
  {
    s[..i] + ins + s[i + 1..]
  }

  /** Filtering a splice filters the part before, the inserted part and the part after in turn. */
  lemma {:induction false} ExcludeSplice<T(!new)>(s: seq<T>, i: nat, ins: seq<T>, drop: set<T>)
    requires i < |s|
    ensures Exclude(SpliceAt(s, i, ins), drop) == Exclude(s[..i], drop) + Exclude(ins, drop) + Exclude(s[i + 1..], drop)
  {
    ExcludeAppend(s[..i] + ins, s[i + 1..], drop);
    ExcludeAppend(s[..i], ins, drop);
  }

  /** `[x for x in s if x not in drop]` is `s` itself when no element of `s` is in `drop`. */
  lemma {:induction false} ExcludeNone<T(!new)>(s: seq<T>, drop: set<T>)
    requires forall x :: x in s ==> x !in drop
    ensures Exclude(s, drop) == s
    decreases |s|
  {
    if |s| > 0 {
      var n := |s| - 1;
      assert s[n] in s;
      forall x | x in s[..n] ensures x !in drop {
        var i :| 0 <= i < n && s[..n][i] == x;
        assert s[i] in s;
      }
      ExcludeNone(s[..n], drop);
      assert s[..n] + [s[n]] == s;
    }
  }

  /** `[x for x in s if x not in drop]` is empty when `drop` covers every element of `s`. */
  lemma {:induction false} ExcludeAll<T(!new)>(s: seq<T>, drop: set<T>)
    requires forall x :: x in s ==> x in drop
    ensures Exclude(s, drop) == []
    decreases |s|
  {
    if |s| > 0 {
      assert s[|s| - 1] in s;
      ExcludeAll(s[..|s| - 1], drop);
    }
  }

  lemma {:induction false} SelectAppend<T(!new)>(a: seq<T>, b: seq<T>, keep: set<T>)
    ensures Select(a + b, keep) == Select(a, keep) + Select(b, keep)
    decreases |b|
  {
    if |b| == 0 {
      assert a + b == a;
    } else {
      var init, last := b[..|b| - 1], b[|b| - 1];
      var tail := if last in keep then [last] else [];
      assert (a + b)[..|a + b| - 1] == a + init;
      assert (a + b)[|a + b| - 1] == last;
      calc {
        Select(a + b, keep);
        Select(a + init, keep) + tail;
        { SelectAppend(a, init, keep); }
        Select(a, keep) + Select(init, keep) + tail;
        Select(a, keep) + (Select(init, keep) + tail);
        Select(a, keep) + Select(b, keep);
      }
    }
  }

  /**
    The index of the first element of `s` that satisfies `p`, or `|s|` when
    there is none: the `for x in s: if p(x): return ...` search.
   */
  function FirstWhere<T>(s: seq<T>, p: T -> bool): (k: nat)
    ensures k <= |s|
    ensures k < |s| ==> p(s[k])
    ensures forall j :: 0 <= j < k ==> !p(s[j])
    decreases |s|
  {
    if |s| == 0 then 0
    else if p(s[0]) then 0
    else 1 + FirstWhere(s[1..], p)
  }

  /** A position whose element satisfies `p` and is preceded by none that does is what `FirstWhere` finds. */
  lemma {:induction false} FirstWhereIs<T>(s: seq<T>, p: T -> bool, i: nat)
    requires i <= |s|
    requires i < |s| ==> p(s[i])
    requires forall j :: 0 <= j < i ==> !p(s[j])
    ensures FirstWhere(s, p) == i
  {
  }

  /** `[f(x) for x in s]` */
  function Map<A, B>(s: seq<A>, f: A -> B): seq<B> {
    seq(|s|, i requires 0 <= i < |s| => f(s[i]))
  }

  lemma {:induction false} MapSnoc<A, B>(s: seq<A>, f: A -> B, i: nat)
    requires i < |s|
    ensures Map(s[..i + 1], f) == Map(s[..i], f) + [f(s[i])]
  {
  }

  /** `s.index(x)`: the position of the first occurrence of `x`. */
  function IndexOf<T(==)>(s: seq<T>, x: T): (i: nat)
    requires x in s
    ensures i < |s| && s[i] == x
    ensures forall j :: 0 <= j < i ==> s[j] != x
  {
    if s[0] == x then 0 else 1 + IndexOf(s[1..], x)
  }
}
