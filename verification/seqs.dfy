/** Order-preserving filtering (JavaScript's `Array.prototype.filter`),
    counting, and the sub-sequence relation the filters are specified by. */
module Seqs {
  import opened Wrappers

  /** `a` is obtained from `b` by deleting elements, keeping the order. */
  predicate Subseq<T(==)>(a: seq<T>, b: seq<T>)
    decreases |b|
  {
    if |a| == 0 then true
    else if |b| == 0 then false
    else (a[0] == b[0] && Subseq(a[1..], b[1..])) || Subseq(a, b[1..])
  }

  /** `filter(p)`: the elements satisfying `p`, in their original order. */
  function Filter<T(==,!new)>(s: seq<T>, p: T -> bool): (r: seq<T>)
    ensures |r| == Count(s, p)
    ensures forall x :: x in r <==> x in s && p(x)
    ensures Subseq(r, s)
  {
    if |s| == 0 then []
    else if p(s[0]) then [s[0]] + Filter(s[1..], p)
    else Filter(s[1..], p)
  }

  /** Nothing is kept exactly when no element satisfies `p`. */
  lemma FilterEmptyIff<T(!new)>(s: seq<T>, p: T -> bool)
    ensures |Filter(s, p)| == 0 <==> forall x :: x in s ==> !p(x)
  {
    var r := Filter(s, p);
    if |r| > 0 {
      assert r[0] in r;
    }
  }

  /** Number of elements satisfying `p` (`filter(p).length` when read as a count). */
  function Count<T>(s: seq<T>, p: T -> bool): (n: nat)
    ensures n <= |s|
  {
    if |s| == 0 then 0
    else (if p(s[0]) then 1 else 0) + Count(s[1..], p)
  }

  /** Index of the first element satisfying `p` (`findIndex`), or `|s|`. */
  function FirstIndex<T>(s: seq<T>, p: T -> bool): (k: nat)
    ensures k <= |s|
    ensures k < |s| ==> p(s[k])
    ensures forall j :: 0 <= j < k ==> !p(s[j])
  {
    if |s| == 0 then 0
    else if p(s[0]) then 0
    else 1 + FirstIndex(s[1..], p)
  }

  /** `find(p)`: the first element satisfying `p`, or nothing. */
  function Find<T>(s: seq<T>, p: T -> bool): (r: Option<T>)
    ensures r.None? <==> forall i :: 0 <= i < |s| ==> !p(s[i])
    ensures r.Some? ==> FirstIndex(s, p) < |s| && r.value == s[FirstIndex(s, p)]
  {
    var k := FirstIndex(s, p);
    if k == |s| then None else Some(s[k])
  }

  lemma {:induction false} SubseqEmpty<T>(b: seq<T>)
    ensures Subseq([], b)
  {
  }

  lemma {:induction false} SubseqRefl<T>(s: seq<T>)
    ensures Subseq(s, s)
    decreases |s|
  {
    if |s| > 0 {
      SubseqRefl(s[1..]);
    }
  }

  /** A predicate every element satisfies filters nothing out. */
  lemma {:induction false} FilterAll<T(!new)>(s: seq<T>, p: T -> bool)
    requires forall i :: 0 <= i < |s| ==> p(s[i])
    ensures Filter(s, p) == s
    decreases |s|
  {
    if |s| > 0 {
      FilterAll(s[1..], p);
    }
  }

  /** Filtering twice is filtering once by the conjunction. */
  lemma {:induction false} FilterFilter<T(!new)>(s: seq<T>, p: T -> bool, q: T -> bool, pq: T -> bool)
    requires forall x :: pq(x) == (p(x) && q(x))
    ensures Filter(Filter(s, p), q) == Filter(s, pq)
    decreases |s|
  {
    if |s| > 0 {
      FilterFilter(s[1..], p, q, pq);
      if p(s[0]) {
        assert Filter(s, p) == [s[0]] + Filter(s[1..], p);
        assert Filter(s, p)[1..] == Filter(s[1..], p);
      }
    }
  }

  /** Pointwise-equal predicates give equal filters. */
  lemma {:induction false} FilterExt<T(!new)>(s: seq<T>, p: T -> bool, q: T -> bool)
    requires forall x :: p(x) == q(x)
    ensures Filter(s, p) == Filter(s, q)
    decreases |s|
  {
    if |s| > 0 {
      FilterExt(s[1..], p, q);
    }
  }

  /** Filtering a list extended by one element extends the filter by it when it passes. */
  lemma {:induction false} FilterAppendOne<T(!new)>(s: seq<T>, x: T, p: T -> bool)
    ensures Filter(s + [x], p) == Filter(s, p) + (if p(x) then [x] else [])
    decreases |s|
  {
    if |s| > 0 {
      assert (s + [x])[1..] == s[1..] + [x];
      FilterAppendOne(s[1..], x, p);
    }
  }

  lemma {:induction false} SubseqTrans<T>(a: seq<T>, b: seq<T>, c: seq<T>)
    requires Subseq(a, b) && Subseq(b, c)
    ensures Subseq(a, c)
    decreases |c|
  {
    if |a| == 0 {
    } else if |c| == 0 {
    } else if |b| == 0 {
    } else if b[0] == c[0] && Subseq(b[1..], c[1..]) {
      if a[0] == b[0] && Subseq(a[1..], b[1..]) {
        SubseqTrans(a[1..], b[1..], c[1..]);
      } else {
        SubseqTrans(a, b[1..], c[1..]);
      }
    } else {
      SubseqTrans(a, b, c[1..]);
    }
  }

  /** A weaker predicate keeps a super-sequence: strengthening a filter never enlarges its result. */
  lemma {:induction false} FilterMonotone<T(!new)>(s: seq<T>, strong: T -> bool, weak: T -> bool)
    requires forall x :: strong(x) ==> weak(x)
    ensures Subseq(Filter(s, strong), Filter(s, weak))
    decreases |s|
  {
    if |s| > 0 {
      FilterMonotone(s[1..], strong, weak);
      var a, b := Filter(s[1..], strong), Filter(s[1..], weak);
      if strong(s[0]) {
        assert Filter(s, strong) == [s[0]] + a;
        assert Filter(s, weak) == [s[0]] + b;
        assert ([s[0]] + a)[1..] == a;
        assert ([s[0]] + b)[1..] == b;
      } else if weak(s[0]) {
        assert Filter(s, weak) == [s[0]] + b;
        assert ([s[0]] + b)[1..] == b;
        SubseqDropHead(Filter(s, strong), s[0], b);
      }
    }
  }

  lemma {:induction false} SubseqDropHead<T>(a: seq<T>, x: T, b: seq<T>)
    requires Subseq(a, b)
    ensures Subseq(a, [x] + b)
  {
    if |a| > 0 {
      assert ([x] + b)[1..] == b;
    }
  }

  /** The first element a filter keeps is the first element satisfying the test. */
  lemma {:induction false} FirstOfFilter<T(!new)>(s: seq<T>, p: T -> bool)
    requires |Filter(s, p)| > 0
    ensures FirstIndex(s, p) < |s| && Filter(s, p)[0] == s[FirstIndex(s, p)]
    decreases |s|
  {
    if !p(s[0]) {
      FirstOfFilter(s[1..], p);
    }
  }

  /** A list whose head passes the test keeps that head first. */
  lemma FilterHead<T(!new)>(s: seq<T>, p: T -> bool)
    requires |s| > 0 && p(s[0])
    ensures |Filter(s, p)| > 0 && Filter(s, p)[0] == s[0]
  {
  }
}
