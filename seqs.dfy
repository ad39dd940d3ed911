/** Sequence facts shared by the scheduler and the store: subsequences and Python's `list.remove`. */
module Seqs {

  /** `a` is obtained from `b` by deleting zero or more elements, keeping the order of the rest. */
  predicate SubSeq<T(==)>(a: seq<T>, b: seq<T>)
    decreases |b|
  {
    if a == [] then true
    else if b == [] then false
    else (a[0] == b[0] && SubSeq(a[1..], b[1..])) || SubSeq(a, b[1..])
  }

  lemma {:induction false} SubSeqRefl<T>(a: seq<T>)
    ensures SubSeq(a, a)
  {
    if a != [] {
      SubSeqRefl(a[1..]);
    }
  }

  lemma {:induction false} SubSeqLength<T>(a: seq<T>, b: seq<T>)
    requires SubSeq(a, b)
    ensures |a| <= |b|
    decreases |b|
  {
    if a != [] {
      if a[0] == b[0] && SubSeq(a[1..], b[1..]) {
        SubSeqLength(a[1..], b[1..]);
      } else {
        SubSeqLength(a, b[1..]);
      }
    }
  }

  lemma {:induction false} SubSeqMembers<T>(a: seq<T>, b: seq<T>)
    requires SubSeq(a, b)
    ensures forall x :: x in a ==> x in b
    decreases |b|
  {
    if a != [] {
      if a[0] == b[0] && SubSeq(a[1..], b[1..]) {
        SubSeqMembers(a[1..], b[1..]);
        assert forall x :: x in a ==> x == a[0] || x in a[1..];
      } else {
        SubSeqMembers(a, b[1..]);
      }
    }
  }

  lemma {:induction false} SubSeqTrans<T>(a: seq<T>, b: seq<T>, c: seq<T>)
    requires SubSeq(a, b) && SubSeq(b, c)
    ensures SubSeq(a, c)
    decreases |c|
  {
    if a != [] {
      if SubSeq(b, c[1..]) {
        SubSeqTrans(a, b, c[1..]);
      } else if a[0] == b[0] && SubSeq(a[1..], b[1..]) {
        SubSeqTrans(a[1..], b[1..], c[1..]);
      } else {
        SubSeqTrans(a, b[1..], c[1..]);
      }
    }
  }

  /** Prepending the same element on both sides keeps a subsequence. */
  lemma SubSeqCons<T>(x: T, a: seq<T>, b: seq<T>)
    requires SubSeq(a, b)
    ensures SubSeq([x] + a, [x] + b)
  {
    assert ([x] + a)[1..] == a;
    assert ([x] + b)[1..] == b;
  }

  /** Prepending an element on the right only keeps a subsequence. */
  lemma SubSeqSkip<T>(x: T, a: seq<T>, b: seq<T>)
    requires SubSeq(a, b)
    ensures SubSeq(a, [x] + b)
  {
    assert ([x] + b)[1..] == b;
  }

  /** Deleting the element at index `j` leaves a subsequence. */
  lemma {:induction false} DeleteAtSubSeq<T>(l: seq<T>, j: nat)
    requires j < |l|
    ensures SubSeq(l[..j] + l[j + 1..], l)
  {
    if j == 0 {
      assert l[..j] + l[j + 1..] == l[1..];
      SubSeqRefl(l[1..]);
    } else {
      DeleteAtSubSeq(l[1..], j - 1);
      assert l[..j] + l[j + 1..] == [l[0]] + (l[1..][..j - 1] + l[1..][j..]);
      assert l == [l[0]] + l[1..];
      SubSeqCons(l[0], l[1..][..j - 1] + l[1..][j..], l[1..]);
    }
  }

  /** Position of the first element equal to `x`. */
  function IndexOf<T(==)>(l: seq<T>, x: T): (j: nat)
    requires x in l
    ensures j < |l| && l[j] == x
    ensures forall k :: 0 <= k < j ==> l[k] != x
  {
    if l[0] == x then 0 else 1 + IndexOf(l[1..], x)
  }

  /** Python's `list.remove(x)`: deletes the first element equal to `x` (which must be present). */
  function RemoveFirst<T(==)>(l: seq<T>, x: T): (r: seq<T>)
    requires x in l
    ensures r == l[..IndexOf(l, x)] + l[IndexOf(l, x) + 1..]
    ensures |r| == |l| - 1
    ensures multiset(r) == multiset(l) - multiset{x}
    ensures SubSeq(r, l)
  {
    var j := IndexOf(l, x);
    DeleteAtSubSeq(l, j);
    assert l == l[..j] + [l[j]] + l[j + 1..];
    l[..j] + l[j + 1..]
  }
}
