/** Facts about sequence concatenation, kept apart so each proof sees only the sequences it needs. */
module SeqFacts {
  lemma AppendAssociates<T>(a: seq<T>, b: seq<T>, c: seq<T>)
    ensures a + b + c == a + (b + c)
  {
  }

  lemma AppendRegroups<T>(a: seq<T>, b: seq<T>, c: seq<T>, d: seq<T>)
    ensures a + (b + c + d) == a + b + c + d
  {
  }

  /** An element of the second part sits `|a|` places further on in `a + b`. */
  lemma AppendIndex<T>(a: seq<T>, b: seq<T>, i: nat)
    requires i < |b|
    ensures (a + b)[|a| + i] == b[i]
  {
  }

  /** A non-empty sequence is its front followed by its last element. */
  lemma InitLast<T>(s: seq<T>)
    requires s != []
    ensures s == s[..|s| - 1] + [s[|s| - 1]]
    ensures forall x :: x in s <==> x in s[..|s| - 1] || x == s[|s| - 1]
  {
    assert s == s[..|s| - 1] + [s[|s| - 1]];
  }

  /** The first `n` elements are the first `n - 1` and the element at `n - 1`. */
  lemma PrefixMembers<T>(s: seq<T>, n: nat)
    requires 0 < n <= |s|
    ensures forall x :: x in s[..n] <==> x in s[..n - 1] || x == s[n - 1]
  {
    assert s[..n] == s[..n - 1] + [s[n - 1]];
  }

  /** `r` is `s` with some elements left out and the rest kept in their order. */
  predicate IsSubsequence<T(==)>(r: seq<T>, s: seq<T>)
    decreases |s|
  {
    r == [] || (s != [] && ((r[0] == s[0] && IsSubsequence(r[1..], s[1..])) || IsSubsequence(r, s[1..])))
  }

  /** Keeping or dropping the head of `s` in front of a subsequence of its tail gives a subsequence of `s`. */
  lemma ConsSubsequence<T>(keep: bool, s: seq<T>, rest: seq<T>)
    requires s != [] && IsSubsequence(rest, s[1..])
    ensures IsSubsequence((if keep then [s[0]] else []) + rest, s)
  {
    var r := (if keep then [s[0]] else []) + rest;
    if keep {
      assert r[0] == s[0] && r[1..] == rest;
    } else {
      assert r == rest;
    }
  }

  /** A subsequence of `s2` is a subsequence of `s1 + s2`. */
  lemma {:induction false} SubsequenceOfSuffix<T>(r: seq<T>, s1: seq<T>, s2: seq<T>)
    requires IsSubsequence(r, s2)
    ensures IsSubsequence(r, s1 + s2)
    decreases |s1|
  {
    if s1 == [] {
      assert s1 + s2 == s2;
    } else if r != [] {
      SubsequenceOfSuffix(r, s1[1..], s2);
      assert (s1 + s2)[1..] == s1[1..] + s2;
    }
  }

  /** Subsequences of two sequences, joined, are a subsequence of the two joined. */
  lemma {:induction false} SubsequenceAppend<T>(r1: seq<T>, s1: seq<T>, r2: seq<T>, s2: seq<T>)
    requires IsSubsequence(r1, s1) && IsSubsequence(r2, s2)
    ensures IsSubsequence(r1 + r2, s1 + s2)
    decreases |s1|
  {
    if r1 == [] {
      assert r1 + r2 == r2;
      SubsequenceOfSuffix(r2, s1, s2);
    } else if r1[0] == s1[0] && IsSubsequence(r1[1..], s1[1..]) {
      SubsequenceAppend(r1[1..], s1[1..], r2, s2);
      assert (r1 + r2)[1..] == r1[1..] + r2;
      assert (s1 + s2)[1..] == s1[1..] + s2;
    } else {
      SubsequenceAppend(r1, s1[1..], r2, s2);
      assert (s1 + s2)[1..] == s1[1..] + s2;
    }
  }

  /** Keeping or dropping the last element of `s` after a subsequence of its front gives a subsequence of `s`. */
  lemma SnocSubsequence<T>(keep: bool, s: seq<T>, rest: seq<T>)
    requires s != [] && IsSubsequence(rest, s[..|s| - 1])
    ensures IsSubsequence(rest + (if keep then [s[|s| - 1]] else []), s)
  {
    var last := [s[|s| - 1]];
    var tail := if keep then last else [];
    assert IsSubsequence(tail, last) by {
      if keep {
        assert tail[0] == last[0] && tail[1..] == [];
      }
    }
    SubsequenceAppend(rest, s[..|s| - 1], tail, last);
    assert s[..|s| - 1] + last == s;
  }

  /** The multiset of a sequence is its head's plus its tail's. */
  lemma MultisetCons<T>(s: seq<T>)
    requires s != []
    ensures multiset(s) == multiset([s[0]]) + multiset(s[1..])
  {
    assert s == [s[0]] + s[1..];
  }

  /** The multiset of a non-empty sequence is its front's plus its last element's. */
  lemma MultisetSnoc<T>(s: seq<T>)
    requires s != []
    ensures multiset(s) == multiset(s[..|s| - 1]) + multiset([s[|s| - 1]])
  {
    assert s == s[..|s| - 1] + [s[|s| - 1]];
  }

  /** A filter's multiplicities give its members: what it keeps is exactly what satisfies `keep`. */
  lemma FilterMembers<T>(r: seq<T>, s: seq<T>, keep: T -> bool)
    requires forall x {:trigger multiset(r)[x]} :: multiset(r)[x] == if keep(x) then multiset(s)[x] else 0
    ensures forall x :: x in r <==> x in s && keep(x)
  {
    forall x
      ensures x in r <==> x in s && keep(x)
    {
      assert x in r <==> multiset(r)[x] > 0;
      assert x in s <==> multiset(s)[x] > 0;
    }
  }
}
