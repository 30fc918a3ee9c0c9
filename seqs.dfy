/** Generic list operations the tree code relies on: Kotlin's `filter`
    followed by `removeAll` (keep the survivors, in order), `firstOrNull`
    followed by `remove` (drop the first match only), and the subsequence
    relation used to state both. */
module Seqs {
  import opened Wrappers

  /** The elements of `s` that satisfy `keep`, in their original order. */
  function Filter<T>(s: seq<T>, keep: T -> bool): seq<T> {
    if s == [] then []
    else if keep(s[0]) then [s[0]] + Filter(s[1..], keep)
    else Filter(s[1..], keep)
  }

  /** `a` can be obtained from `b` by deleting elements. */
  predicate IsSubsequence<T(==)>(a: seq<T>, b: seq<T>) {
    if a == [] then true
    else if b == [] then false
    else if a[0] == b[0] then IsSubsequence(a[1..], b[1..])
    else IsSubsequence(a, b[1..])
  }

  /** Whether some element satisfies `p`. */
  predicate Exists<T>(s: seq<T>, p: T -> bool) {
    exists i | 0 <= i < |s| :: p(s[i])
  }

  /** The index of the first element satisfying `p`, as `firstOrNull` finds it. */
  function FirstIndex<T>(s: seq<T>, p: T -> bool): (r: Option<nat>)
    ensures r.None? <==> !Exists(s, p)
    ensures r.Some? ==> r.value < |s| && p(s[r.value])
                        && forall i | 0 <= i < r.value :: !p(s[i])
  {
    if s == [] then None
    else if p(s[0]) then Some(0)
    else
      var r := FirstIndex(s[1..], p);
      if r.None? then
        assert forall i | 1 <= i < |s| :: s[i] == s[1..][i - 1];
        None
      else Some(r.value + 1)
  }

  /** `s` without its first element satisfying `p`; `s` itself when none does. */
  function RemoveFirst<T>(s: seq<T>, p: T -> bool): seq<T> {
    if s == [] then []
    else if p(s[0]) then s[1..]
    else [s[0]] + RemoveFirst(s[1..], p)
  }

  lemma {:induction false} FilterSatisfies<T>(s: seq<T>, keep: T -> bool)
    ensures forall i | 0 <= i < |Filter(s, keep)| :: keep(Filter(s, keep)[i])
  {
    if s != [] {
      FilterSatisfies(s[1..], keep);
    }
  }

  lemma {:induction false} FilterCounts<T>(s: seq<T>, keep: T -> bool)
    ensures forall x | keep(x) :: multiset(Filter(s, keep))[x] == multiset(s)[x]
    ensures |Filter(s, keep)| <= |s|
  {
    if s != [] {
      FilterCounts(s[1..], keep);
      assert s == [s[0]] + s[1..];
    }
  }

  lemma {:induction false} FilterIsSubsequence<T>(s: seq<T>, keep: T -> bool)
    ensures IsSubsequence(Filter(s, keep), s)
  {
    if s != [] {
      FilterIsSubsequence(s[1..], keep);
      if keep(s[0]) {
        assert ([s[0]] + Filter(s[1..], keep))[1..] == Filter(s[1..], keep);
      } else {
        SubsequenceOfTail(Filter(s[1..], keep), s);
      }
    }
  }

  lemma {:induction false} SubsequenceOfTail<T>(a: seq<T>, b: seq<T>)
    requires b != [] && IsSubsequence(a, b[1..])
    ensures IsSubsequence(a, b)
    decreases |b|, 0
  {
    if a != [] && a[0] == b[0] {
      SubsequenceDropHead(a, b[1..]);
    }
  }

  lemma {:induction false} SubsequenceDropHead<T>(a: seq<T>, b: seq<T>)
    requires a != [] && IsSubsequence(a, b)
    ensures IsSubsequence(a[1..], b)
    decreases |b|, 1
  {
    if a[0] != b[0] {
      SubsequenceDropHead(a, b[1..]);
    }
    SubsequenceOfTail(a[1..], b);
  }

  /** When every element is kept, filtering changes nothing. */
  lemma {:induction false} FilterAll<T>(s: seq<T>, keep: T -> bool)
    requires forall i | 0 <= i < |s| :: keep(s[i])
    ensures Filter(s, keep) == s
  {
    if s != [] {
      assert forall i | 0 <= i < |s[1..]| :: s[1..][i] == s[i + 1];
      FilterAll(s[1..], keep);
    }
  }

  lemma {:induction false} FilterConcat<T>(a: seq<T>, b: seq<T>, keep: T -> bool)
    ensures Filter(a + b, keep) == Filter(a, keep) + Filter(b, keep)
  {
    if a != [] {
      assert (a + b)[1..] == a[1..] + b;
      FilterConcat(a[1..], b, keep);
    } else {
      assert a + b == b;
    }
  }

  /** RemoveFirst drops exactly the element at the first match and keeps the
      rest in order; without a match it is the identity. */
  lemma {:induction false} RemoveFirstSpec<T>(s: seq<T>, p: T -> bool)
    ensures FirstIndex(s, p).None? ==> RemoveFirst(s, p) == s
    ensures FirstIndex(s, p).Some? ==>
      var j := FirstIndex(s, p).value;
      RemoveFirst(s, p) == s[..j] + s[j + 1..]
  {
    if s != [] && !p(s[0]) {
      RemoveFirstSpec(s[1..], p);
      var r := FirstIndex(s[1..], p);
      if r.Some? {
        assert s[..r.value + 1] == [s[0]] + s[1..][..r.value];
        assert s[r.value + 2..] == s[1..][r.value + 1..];
      }
    }
  }

  lemma Assoc<T>(a: seq<T>, b: seq<T>, c: seq<T>)
    ensures a + b + c == a + (b + c)
  {
  }

  lemma Assoc4<T>(a: seq<T>, b: seq<T>, c: seq<T>, d: seq<T>)
    ensures a + b + c + d == a + (b + c + d)
  {
  }

  /** `filter` as the loop runs it: the elements `keep` accepts, in order,
      and whether some element was turned away (so that the `removeAll`
      that follows has something to remove). */
  method FilterLoop<T>(s: seq<T>, keep: T -> bool) returns (kept: seq<T>, rejected: bool)
    ensures kept == Filter(s, keep)
    ensures rejected <==> exists i | 0 <= i < |s| :: !keep(s[i])
  {
    kept := [];
    rejected := false;
    var i := 0;
    while i < |s|
      invariant 0 <= i <= |s|
      invariant kept == Filter(s[..i], keep)
      invariant rejected <==> exists k | 0 <= k < i :: !keep(s[k])
    {
      FilterConcat(s[..i], [s[i]], keep);
      assert s[..i + 1] == s[..i] + [s[i]];
      if keep(s[i]) {
        kept := kept + [s[i]];
      } else {
        rejected := true;
      }
      i := i + 1;
    }
    assert s[..|s|] == s;
  }
}
