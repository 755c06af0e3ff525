/**
 Order-preserving selection over sequences: the filtering and the prefix
 slice that the list screen applies to the roster, and the subsequence
 relation that relates every derived list to the roster it came from.
 */
module Seqs {

  /** The elements of `s` that satisfy `p`, in their original order: every
      copy of a passing element is kept and every copy of a failing one dropped. */
  function Keep<T>(s: seq<T>, p: T -> bool): (r: seq<T>)
    ensures |r| <= |s|
    ensures forall i :: 0 <= i < |r| ==> r[i] in s && p(r[i])
    ensures forall i :: 0 <= i < |s| && p(s[i]) ==> s[i] in r
    ensures forall i :: 0 <= i < |s| ==>
              multiset(r)[s[i]] == if p(s[i]) then multiset(s)[s[i]] else 0
    decreases |s|
  {
    if |s| == 0 then []
    else
      var head := if p(s[0]) then [s[0]] else [];
      var rest := Keep(s[1..], p);
      KeepCounts(s, p, head, rest);
      head + rest
  }

  /** One step of the count argument for `Keep`: the count of `x` in the
      result is its count in the head's contribution plus its count in the
      filtered tail. */
  lemma KeepCount<T>(s: seq<T>, p: T -> bool, head: seq<T>, rest: seq<T>, x: T)
    requires |s| > 0
    requires head == if p(s[0]) then [s[0]] else []
    requires forall i :: 0 <= i < |rest| ==> rest[i] in s[1..]
    requires forall i :: 0 <= i < |s| - 1 ==>
               multiset(rest)[s[1..][i]] == if p(s[1..][i]) then multiset(s[1..])[s[1..][i]] else 0
    requires x in s
    ensures multiset(head + rest)[x] == if p(x) then multiset(s)[x] else 0
  {
    assert s == [s[0]] + s[1..];
    assert multiset(s)[x] == multiset([s[0]])[x] + multiset(s[1..])[x];
    assert multiset(head + rest)[x] == multiset(head)[x] + multiset(rest)[x];
    if x in s[1..] {
      var j :| 0 <= j < |s[1..]| && s[1..][j] == x;
    } else {
      assert x !in rest;
      assert multiset(s[1..])[x] == 0;
    }
  }

  lemma KeepCounts<T>(s: seq<T>, p: T -> bool, head: seq<T>, rest: seq<T>)
    requires |s| > 0
    requires head == if p(s[0]) then [s[0]] else []
    requires forall i :: 0 <= i < |rest| ==> rest[i] in s[1..]
    requires forall i :: 0 <= i < |s| - 1 ==>
               multiset(rest)[s[1..][i]] == if p(s[1..][i]) then multiset(s[1..])[s[1..][i]] else 0
    ensures forall i :: 0 <= i < |s| ==>
              multiset(head + rest)[s[i]] == if p(s[i]) then multiset(s)[s[i]] else 0
  {
    forall i | 0 <= i < |s|
      ensures multiset(head + rest)[s[i]] == if p(s[i]) then multiset(s)[s[i]] else 0
    {
      KeepCount(s, p, head, rest, s[i]);
    }
  }

  /** The elements of `s` other than `x`, in their original order and with
      their multiplicities. */
  function Without<T(==)>(s: seq<T>, x: T): (r: seq<T>)
    ensures x !in r
    ensures IsSubseq(r, s)
    ensures forall i :: 0 <= i < |s| && s[i] != x ==> multiset(r)[s[i]] == multiset(s)[s[i]]
  {
    KeepIsSubseq(s, y => y != x);
    Keep(s, y => y != x)
  }

  /** Removing an element that is absent changes nothing. */
  lemma WithoutAbsent<T>(s: seq<T>, x: T)
    requires x !in s
    ensures Without(s, x) == s
  {
    KeepAll(s, y => y != x);
  }

  /** Removing `x` from `s + [x]` removes just the appended copy when `s` holds none. */
  lemma WithoutAppended<T>(s: seq<T>, x: T)
    requires x !in s
    ensures Without(s + [x], x) == s
  {
    KeepAppend(s, [x], y => y != x);
    KeepAll(s, y => y != x);
    KeepNone([x], y => y != x);
  }

  /** The first `n` elements of `s`, or all of them when `s` is shorter. */
  function Take<T>(s: seq<T>, n: nat): (r: seq<T>)
    ensures |r| == if n < |s| then n else |s|
    ensures r <= s
  {
    if n < |s| then s[..n] else s
  }

  /** `a` is obtained from `b` by deleting elements, keeping the order of the rest. */
  predicate IsSubseq<T(==)>(a: seq<T>, b: seq<T>)
    decreases |b|
  {
    if |b| == 0 then |a| == 0
    else IsSubseq(a, b[1..]) || (|a| > 0 && a[0] == b[0] && IsSubseq(a[1..], b[1..]))
  }

  /** Filtering distributes over concatenation: with the singleton case this
      pins `Keep` down completely, multiplicities and order included. */
  lemma {:induction false} KeepAppend<T>(a: seq<T>, b: seq<T>, p: T -> bool)
    ensures Keep(a + b, p) == Keep(a, p) + Keep(b, p)
    decreases |a|
  {
    if |a| == 0 {
      assert a + b == b;
    } else {
      assert (a + b)[1..] == a[1..] + b;
      KeepAppend(a[1..], b, p);
    }
  }

  /** Filtering with a predicate that every element meets changes nothing. */
  lemma {:induction false} KeepAll<T>(s: seq<T>, p: T -> bool)
    requires forall i :: 0 <= i < |s| ==> p(s[i])
    ensures Keep(s, p) == s
    decreases |s|
  {
    if |s| > 0 {
      KeepAll(s[1..], p);
    }
  }

  /** Filtering with a predicate that no element meets leaves nothing. */
  lemma {:induction false} KeepNone<T>(s: seq<T>, p: T -> bool)
    requires forall i :: 0 <= i < |s| ==> !p(s[i])
    ensures Keep(s, p) == []
    decreases |s|
  {
    if |s| > 0 {
      KeepNone(s[1..], p);
    }
  }

  lemma {:induction false} SubseqRefl<T>(s: seq<T>)
    ensures IsSubseq(s, s)
    decreases |s|
  {
    if |s| > 0 {
      SubseqRefl(s[1..]);
    }
  }

  lemma {:induction false} EmptySubseq<T>(s: seq<T>)
    ensures IsSubseq([], s)
    decreases |s|
  {
    if |s| > 0 {
      EmptySubseq(s[1..]);
    }
  }

  /** A filtered sequence is a subsequence of the one it was filtered from. */
  lemma {:induction false} KeepIsSubseq<T>(s: seq<T>, p: T -> bool)
    ensures IsSubseq(Keep(s, p), s)
    decreases |s|
  {
    if |s| > 0 {
      KeepIsSubseq(s[1..], p);
      if p(s[0]) {
        assert Keep(s, p) == [s[0]] + Keep(s[1..], p);
        assert Keep(s, p)[1..] == Keep(s[1..], p);
      } else {
        assert Keep(s, p) == Keep(s[1..], p);
      }
    }
  }

  /** A prefix is a subsequence. */
  lemma {:induction false} PrefixIsSubseq<T>(s: seq<T>, n: nat)
    requires n <= |s|
    ensures IsSubseq(s[..n], s)
    decreases n
  {
    if n == 0 {
      EmptySubseq(s);
    } else {
      PrefixIsSubseq(s[1..], n - 1);
      assert s[..n][1..] == s[1..][..n - 1];
    }
  }

  /** The subsequence relation is transitive, so a chain of filters and a
      slice still yields a subsequence of the original. */
  lemma {:induction false} SubseqTrans<T>(a: seq<T>, b: seq<T>, c: seq<T>)
    requires IsSubseq(a, b) && IsSubseq(b, c)
    ensures IsSubseq(a, c)
    decreases |c|
  {
    if |c| > 0 {
      if IsSubseq(b, c[1..]) {
        SubseqTrans(a, b, c[1..]);
      } else {
        assert |b| > 0 && b[0] == c[0] && IsSubseq(b[1..], c[1..]);
        if IsSubseq(a, b[1..]) {
          SubseqTrans(a, b[1..], c[1..]);
        } else {
          SubseqTrans(a[1..], b[1..], c[1..]);
        }
      }
    }
  }

  /** A subsequence is no longer than its host and holds only its elements. */
  lemma {:induction false} SubseqBounds<T>(a: seq<T>, b: seq<T>)
    requires IsSubseq(a, b)
    ensures |a| <= |b|
    ensures forall x :: x in a ==> x in b
    decreases |b|
  {
    if |b| > 0 {
      if IsSubseq(a, b[1..]) {
        SubseqBounds(a, b[1..]);
      } else {
        SubseqBounds(a[1..], b[1..]);
        assert a == [a[0]] + a[1..];
      }
    }
  }
}
