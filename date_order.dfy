/**
 * The in-place sorts of worker/user-routes.ts: `items.sort(...)` on the
 * application list and `application.events.sort(...)` on an application's
 * events, both with a comparator `(a, b) => time(b) - time(a)`, newest first.
 * The date of an element is abstracted as a key function to integers.
 */
module DateOrder {

  /** Newest first: keys never increase along the sequence. */
  predicate NewestFirst<T>(s: seq<T>, key: T -> int) {
    forall p, q :: 0 <= p < q < |s| ==> key(s[p]) >= key(s[q])
  }

  /** Keys never increase over the first `n` elements of `a`. */
  ghost predicate PrefixNewestFirst<T>(a: array<T>, n: int, key: T -> int)
    reads a
  {
    forall p, q :: 0 <= p < q < n && q < a.Length ==> key(a[p]) >= key(a[q])
  }

  /** Sorts `a` in place into non-increasing key order, keeping exactly its elements. */
  method SortNewestFirst<T>(a: array<T>, key: T -> int)
    modifies a
    ensures NewestFirst(a[..], key)
    ensures multiset(a[..]) == multiset(old(a[..]))
  {
    var i := 0;
    while i < a.Length
      invariant 0 <= i <= a.Length
      invariant PrefixNewestFirst(a, i, key)
      invariant multiset(a[..]) == multiset(old(a[..]))
    {
      InsertNewest(a, i, key);
      i := i + 1;
    }
  }

  /** Moves `a[i]` left past every element with a smaller key, so that the first `i + 1` are in order. */
  method InsertNewest<T>(a: array<T>, i: int, key: T -> int)
    requires 0 <= i < a.Length
    requires PrefixNewestFirst(a, i, key)
    modifies a
    ensures PrefixNewestFirst(a, i + 1, key)
    ensures multiset(a[..]) == multiset(old(a[..]))
  {
    var j := i;
    while j > 0 && key(a[j - 1]) < key(a[j])
      invariant 0 <= j <= i
      invariant forall p, q :: 0 <= p < q <= i && p != j && q != j ==> key(a[p]) >= key(a[q])
      invariant forall q :: j < q <= i ==> key(a[j]) >= key(a[q])
      invariant 0 < j < i ==> key(a[j - 1]) >= key(a[j + 1])
      invariant multiset(a[..]) == multiset(old(a[..]))
    {
      SwapWithPrevious(a, j);
      j := j - 1;
    }
  }

  /** Exchanges `a[j - 1]` and `a[j]`. */
  method SwapWithPrevious<T>(a: array<T>, j: int)
    requires 0 < j < a.Length
    modifies a
    ensures a[..] == old(a[..])[j - 1 := old(a[j])][j := old(a[j - 1])]
    ensures multiset(a[..]) == multiset(old(a[..]))
  {
    a[j - 1], a[j] := a[j], a[j - 1];
  }
}
