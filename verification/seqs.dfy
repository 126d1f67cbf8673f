/**
 The array operations the screens use on their lists: `Array.prototype.filter`
 (a stable selection), the order-preserving subsequence relation it
 establishes, and the `indexOf` / `splice` / `push` toggle that the filter
 chips and the volunteer interests share.
 */
module Seqs {

  /** `a` is obtained from `b` by deleting elements, keeping the order. */
  predicate IsSubsequence<T(==)>(a: seq<T>, b: seq<T>)
    decreases |b|
  {
    |a| == 0 ||
    (|b| > 0 && ((a[0] == b[0] && IsSubsequence(a[1..], b[1..])) || IsSubsequence(a, b[1..])))
  }

  /** The elements of `s` satisfying `p`, in their original order. */
  function Filter<T(==)>(p: T -> bool, s: seq<T>): (r: seq<T>)
    ensures |r| <= |s|
    ensures forall i :: 0 <= i < |r| ==> p(r[i])
  {
    if |s| == 0 then []
    else (if p(s[0]) then [s[0]] else []) + Filter(p, s[1..])
  }

  /** An element is kept exactly when it occurs in `s` and satisfies `p`. */
  lemma {:induction false} FilterMembership<T>(p: T -> bool, s: seq<T>, x: T)
    ensures x in Filter(p, s) <==> x in s && p(x)
  {
    if |s| > 0 {
      FilterMembership(p, s[1..], x);
      assert s == [s[0]] + s[1..];
    }
  }

  /** Filtering keeps the catalog order: its result is a subsequence. */
  lemma {:induction false} FilterIsSubsequence<T>(p: T -> bool, s: seq<T>)
    ensures IsSubsequence(Filter(p, s), s)
  {
    if |s| > 0 {
      FilterIsSubsequence(p, s[1..]);
      var rest := Filter(p, s[1..]);
      if p(s[0]) {
        assert Filter(p, s)[1..] == rest;
      } else {
        assert Filter(p, s) == rest;
        SubsequenceOfTail(rest, s);
      }
    }
  }

  /** A subsequence of the tail is a subsequence of the whole. */
  lemma SubsequenceOfTail<T>(a: seq<T>, b: seq<T>)
    requires |b| > 0 && IsSubsequence(a, b[1..])
    ensures IsSubsequence(a, b)
  {
  }

  /** Every element of a subsequence occurs in the whole. */
  lemma {:induction false} SubsequenceMember<T>(a: seq<T>, b: seq<T>, k: int)
    requires IsSubsequence(a, b) && 0 <= k < |a|
    ensures a[k] in b
    decreases |b|
  {
    if a[0] == b[0] && IsSubsequence(a[1..], b[1..]) {
      if k > 0 {
        SubsequenceMember(a[1..], b[1..], k - 1);
      }
    } else {
      SubsequenceMember(a, b[1..], k);
    }
  }

  /** Filtering with a predicate every element satisfies changes nothing. */
  lemma {:induction false} FilterAll<T>(p: T -> bool, s: seq<T>)
    requires forall i :: 0 <= i < |s| ==> p(s[i])
    ensures Filter(p, s) == s
  {
    if |s| > 0 {
      FilterAll(p, s[1..]);
    }
  }

  /** Filtering with a predicate no element satisfies leaves nothing. */
  lemma {:induction false} FilterNone<T>(p: T -> bool, s: seq<T>)
    requires forall i :: 0 <= i < |s| ==> !p(s[i])
    ensures Filter(p, s) == []
  {
    if |s| > 0 {
      FilterNone(p, s[1..]);
    }
  }

  /** Two predicates that agree on every element of `s` filter it alike. */
  lemma {:induction false} FilterCongruent<T>(p: T -> bool, q: T -> bool, s: seq<T>)
    requires forall i :: 0 <= i < |s| ==> p(s[i]) == q(s[i])
    ensures Filter(p, s) == Filter(q, s)
  {
    if |s| > 0 {
      FilterCongruent(p, q, s[1..]);
    }
  }

  /** Filtering distributes over concatenation. */
  lemma {:induction false} FilterAppend<T>(p: T -> bool, a: seq<T>, b: seq<T>)
    ensures Filter(p, a + b) == Filter(p, a) + Filter(p, b)
  {
    if |a| == 0 {
      assert a + b == b;
    } else {
      assert (a + b)[1..] == a[1..] + b;
      FilterAppend(p, a[1..], b);
    }
  }

  /** A single element is kept exactly when it satisfies `p`. */
  lemma FilterSingle<T>(p: T -> bool, x: T)
    ensures Filter(p, [x]) == if p(x) then [x] else []
  {
    assert [x][1..] == [];
  }

  /** Filtering out an element that occurs shortens the sequence. */
  lemma {:induction false} FilterDropsShorter<T>(p: T -> bool, s: seq<T>, i: int)
    requires 0 <= i < |s| && !p(s[i])
    ensures |Filter(p, s)| < |s|
  {
    if i > 0 {
      FilterDropsShorter(p, s[1..], i - 1);
    }
  }

  /** A selection over six elements is decided element by element. */
  lemma {:induction false} FilterSix<T>(p: T -> bool, d: seq<T>)
    requires |d| == 6
    ensures Filter(p, d) ==
            Filter(p, [d[0]]) + Filter(p, [d[1]]) + Filter(p, [d[2]])
            + Filter(p, [d[3]]) + Filter(p, [d[4]]) + Filter(p, [d[5]])
  {
    assert d == [d[0]] + ([d[1]] + ([d[2]] + ([d[3]] + ([d[4]] + [d[5]]))));
    FilterAppend(p, [d[4]], [d[5]]);
    FilterAppend(p, [d[3]], [d[4]] + [d[5]]);
    FilterAppend(p, [d[2]], [d[3]] + ([d[4]] + [d[5]]));
    FilterAppend(p, [d[1]], [d[2]] + ([d[3]] + ([d[4]] + [d[5]])));
    FilterAppend(p, [d[0]], [d[1]] + ([d[2]] + ([d[3]] + ([d[4]] + [d[5]]))));
  }

  // ---------------------------------------------------------------------
  // Distinct elements

  predicate NoDup<T(==)>(s: seq<T>) {
    forall i, j :: 0 <= i < j < |s| ==> s[i] != s[j]
  }

  /** Filtering a duplicate-free sequence yields a duplicate-free sequence. */
  lemma {:induction false} FilterNoDup<T>(p: T -> bool, s: seq<T>)
    requires NoDup(s)
    ensures NoDup(Filter(p, s))
  {
    if |s| > 0 {
      assert NoDup(s[1..]) by {
        forall i, j | 0 <= i < j < |s[1..]|
          ensures s[1..][i] != s[1..][j]
        {
          assert s[1..][i] == s[i + 1] && s[1..][j] == s[j + 1];
        }
      }
      FilterNoDup(p, s[1..]);
      assert s[0] !in s[1..];
      FilterMembership(p, s[1..], s[0]);
    }
  }

  // ---------------------------------------------------------------------
  // indexOf / splice / push

  /** `s.indexOf(x)`: the position of the first occurrence of `x`, or -1. */
  function IndexOf<T(==)>(s: seq<T>, x: T): (r: int)
    ensures -1 <= r < |s|
    ensures r == -1 <==> x !in s
    ensures 0 <= r ==> s[r] == x && x !in s[..r]
  {
    if |s| == 0 then -1
    else if s[0] == x then 0
    else
      var k := IndexOf(s[1..], x);
      if k == -1 then -1
      else
        assert s[..k + 1] == [s[0]] + s[1..][..k];
        k + 1
  }

  /** The copy-then-toggle of `toggleFilter` and `handleInterestToggle`:
      splice out the first occurrence of `x` when `indexOf` finds it,
      otherwise push `x` at the end. */
  function Toggle<T(==)>(s: seq<T>, x: T): (r: seq<T>)
    ensures x !in s ==> r == s + [x]
    ensures x in s ==> |r| == |s| - 1 && exists i :: 0 <= i < |s| && s[i] == x && x !in s[..i] && r == s[..i] + s[i + 1..]
  {
    var i := IndexOf(s, x);
    if i > -1 then s[..i] + s[i + 1..] else s + [x]
  }

  /** On a duplicate-free list, toggling flips the membership of `x` and
      leaves the membership of every other value alone. */
  lemma ToggleMembership<T>(s: seq<T>, x: T, y: T)
    requires NoDup(s)
    ensures y in Toggle(s, x) <==> (if y == x then x !in s else y in s)
  {
    var r := Toggle(s, x);
    if x in s {
      var i := IndexOf(s, x);
      assert r == s[..i] + s[i + 1..];
      if y in r {
        var k :| 0 <= k < |r| && r[k] == y;
        if k < i {
          assert r[k] == s[k];
        } else {
          assert r[k] == s[k + 1];
        }
      }
      if y in s && y != x {
        var k :| 0 <= k < |s| && s[k] == y;
        if k < i {
          assert r[k] == y;
        } else {
          assert r[k - 1] == y;
        }
      }
    }
  }

  /** Toggling keeps a list free of duplicates. */
  lemma ToggleNoDup<T>(s: seq<T>, x: T)
    requires NoDup(s)
    ensures NoDup(Toggle(s, x))
  {
    var r := Toggle(s, x);
    if x in s {
      var i := IndexOf(s, x);
      assert r == s[..i] + s[i + 1..];
      forall a, b | 0 <= a < b < |r|
        ensures r[a] != r[b]
      {
        var a' := if a < i then a else a + 1;
        var b' := if b < i then b else b + 1;
        assert r[a] == s[a'] && r[b] == s[b'];
      }
    }
  }

  /** Toggling the same value twice restores the membership of every value
      in a duplicate-free list and, when the value was absent at first,
      restores the list itself. */
  lemma ToggleTwice<T>(s: seq<T>, x: T)
    requires NoDup(s)
    ensures forall y :: y in Toggle(Toggle(s, x), x) <==> y in s
    ensures x !in s ==> Toggle(Toggle(s, x), x) == s
  {
    ToggleNoDup(s, x);
    var t := Toggle(s, x);
    forall y
      ensures y in Toggle(t, x) <==> y in s
    {
      ToggleMembership(s, x, y);
      ToggleMembership(t, x, y);
    }
    if x !in s {
      assert t == s + [x];
      assert IndexOf(t, x) == |s|;
      assert t[..|s|] == s;
    }
  }
}
