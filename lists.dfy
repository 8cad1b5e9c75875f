/** Small list helpers shared by the editor's operations. */
module Lists {

  datatype Option<T> = None | Some(value: T)

  /** Concatenation is associative. */
  lemma ConcatAssoc<T>(a: seq<T>, b: seq<T>, c: seq<T>)
    ensures (a + b) + c == a + (b + c)
  {
  }

  /** A list is a prefix of itself extended. */
  lemma PrefixOfConcat<T>(a: seq<T>, b: seq<T>)
    ensures a <= a + b
  {
    assert (a + b)[..|a|] == a;
  }

  /** A prefix of a list is a prefix of that list extended. */
  lemma PrefixOfLonger<T>(p: seq<T>, a: seq<T>, b: seq<T>)
    requires p <= a
    ensures p <= a + b
  {
    assert (a + b)[..|p|] == a[..|p|];
  }

  /**
   * `xs.filter((_, i) => i !== index)`: drops the element at `index`, and
   * nothing when `index` is not a position of `xs`.
   */
  function WithoutIndex<T>(xs: seq<T>, index: int): (r: seq<T>)
    ensures r == if 0 <= index < |xs| then xs[..index] + xs[index + 1..] else xs
    decreases |xs|
  {
    if xs == [] then []
    else (if index == 0 then [] else [xs[0]]) + WithoutIndex(xs[1..], index - 1)
  }

  /** Dropping a position shifts the later elements down by one. */
  lemma WithoutIndexAt<T>(xs: seq<T>, index: int)
    ensures var r := WithoutIndex(xs, index);
      0 <= index < |xs| ==> |r| == |xs| - 1 && forall j :: 0 <= j < |r| ==> r[j] == xs[if index <= j then j + 1 else j]
  {
  }

  /** Dropping a position loses exactly one occurrence of the element there. */
  lemma WithoutIndexCounts<T>(xs: seq<T>, index: int)
    requires 0 <= index < |xs|
    ensures multiset(xs[..index] + xs[index + 1..]) + multiset{xs[index]} == multiset(xs)
  {
    MultisetSplit(xs[..index], xs[index], xs[index + 1..]);
    assert xs[..index] + [xs[index]] + xs[index + 1..] == xs;
  }

  lemma MultisetSplit<T>(a: seq<T>, x: T, b: seq<T>)
    ensures multiset(a + b) + multiset{x} == multiset(a + [x] + b)
  {
  }

  /** `xs.filter(keep)`. */
  function Filter<T>(xs: seq<T>, keep: T -> bool): (r: seq<T>)
    ensures |r| <= |xs|
    ensures forall i :: 0 <= i < |r| ==> keep(r[i])
    ensures forall x :: x in r ==> x in xs
    decreases |xs|
  {
    if xs == [] then []
    else (if keep(xs[0]) then [xs[0]] else []) + Filter(xs[1..], keep)
  }

  /** Filtering distributes over concatenation: it keeps the relative order of what it keeps. */
  lemma {:induction false} FilterConcat<T>(a: seq<T>, b: seq<T>, keep: T -> bool)
    ensures Filter(a + b, keep) == Filter(a, keep) + Filter(b, keep)
    decreases |a|
  {
    if a != [] {
      var head := if keep(a[0]) then [a[0]] else [];
      assert (a + b)[0] == a[0] && (a + b)[1..] == a[1..] + b;
      FilterConcat(a[1..], b, keep);
      assert Filter(a + b, keep) == head + Filter(a[1..] + b, keep);
      assert Filter(a, keep) == head + Filter(a[1..], keep);
      var x, y := Filter(a[1..], keep), Filter(b, keep);
      assert head + (x + y) == (head + x) + y;
    } else {
      assert a + b == b;
    }
  }

  /** Filtering removes exactly the occurrences that fail `keep`, and no others. */
  lemma {:induction false} FilterCounts<T>(xs: seq<T>, keep: T -> bool, x: T)
    ensures multiset(Filter(xs, keep))[x] == if keep(x) then multiset(xs)[x] else 0
    decreases |xs|
  {
    if xs != [] {
      FilterCounts(xs[1..], keep, x);
      assert xs == [xs[0]] + xs[1..];
    }
  }

  /** Filtering is idempotent. */
  lemma {:induction false} FilterIdempotent<T>(xs: seq<T>, keep: T -> bool)
    ensures Filter(Filter(xs, keep), keep) == Filter(xs, keep)
    decreases |xs|
  {
    if xs != [] {
      FilterIdempotent(xs[1..], keep);
      var head := if keep(xs[0]) then [xs[0]] else [];
      FilterConcat(head, Filter(xs[1..], keep), keep);
    }
  }

  /** Filtering by a weaker test first changes nothing about what a stronger one keeps. */
  lemma {:induction false} FilterFilter<T>(xs: seq<T>, weaker: T -> bool, keep: T -> bool)
    requires forall x :: keep(x) ==> weaker(x)
    ensures Filter(Filter(xs, weaker), keep) == Filter(xs, keep)
    decreases |xs|
  {
    if xs != [] {
      var head := if weaker(xs[0]) then [xs[0]] else [];
      FilterConcat(head, Filter(xs[1..], weaker), keep);
      FilterFilter(xs[1..], weaker, keep);
      assert head == [] || head[1..] == [];
    }
  }

  /** A filter every element passes keeps the list as it is. */
  lemma {:induction false} FilterAllKept<T>(xs: seq<T>, keep: T -> bool)
    requires forall i :: 0 <= i < |xs| ==> keep(xs[i])
    ensures Filter(xs, keep) == xs
    decreases |xs|
  {
    if xs != [] {
      assert forall i :: 1 <= i < |xs| ==> xs[1..][i - 1] == xs[i];
      FilterAllKept(xs[1..], keep);
    }
  }

  /** A filter keeps nothing exactly when no element passes. */
  lemma {:induction false} FilterEmpty<T>(xs: seq<T>, keep: T -> bool)
    ensures Filter(xs, keep) == [] <==> forall i :: 0 <= i < |xs| ==> !keep(xs[i])
    decreases |xs|
  {
    if xs != [] {
      FilterEmpty(xs[1..], keep);
      assert forall i :: 1 <= i < |xs| ==> xs[i] == xs[1..][i - 1];
    }
  }
}
