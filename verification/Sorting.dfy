/** Sorting as the programs take it from the library: a sorted permutation, for any weak order. */
module Sorting {

  /** Nothing stands before something smaller. */
  ghost predicate SortedBy<T>(s: seq<T>, less: (T, T) -> bool) {
    forall i, j {:trigger less(s[j], s[i])} :: 0 <= i < j < |s| ==> !less(s[j], s[i])
  }

  ghost predicate Asymmetric<T(!new)>(less: (T, T) -> bool) {
    forall a, b {:trigger less(a, b), less(b, a)} :: less(a, b) ==> !less(b, a)
  }

  ghost predicate Transitive<T(!new)>(less: (T, T) -> bool) {
    forall a, b, c {:trigger less(b, a), less(c, b)} :: !less(b, a) && !less(c, b) ==> !less(c, a)
  }

  /** What a comparison must be for a sort to work. */
  ghost predicate WeakOrder<T(!new)>(less: (T, T) -> bool) {
    Asymmetric(less) && Transitive(less)
  }

  lemma InsertedIsSorted<T(!new)>(s: seq<T>, less: (T, T) -> bool, e: T, k: nat)
    requires WeakOrder(less) && SortedBy(s, less) && k <= |s|
    requires k > 0 ==> !less(e, s[k - 1])
    requires forall i {:trigger s[i]} :: k <= i < |s| ==> less(e, s[i])
    ensures SortedBy(s[..k] + [e] + s[k..], less)
  {
    var r := s[..k] + [e] + s[k..];
    forall i, j | 0 <= i < j < |r| ensures !less(r[j], r[i]) {
      if i < k && j == k {
        assert i < k - 1 ==> !less(s[k - 1], s[i]);
      } else if i == k {
        assert less(e, s[j - 1]);
      } else {
        var a, b := if i < k then i else i - 1, if j < k then j else j - 1;
        assert !less(s[b], s[a]);
      }
    }
  }

  /** Puts `e` behind everything that is not after it. */
  method Insert<T(!new)>(s: seq<T>, less: (T, T) -> bool, e: T) returns (r: seq<T>)
    requires WeakOrder(less) && SortedBy(s, less)
    ensures SortedBy(r, less) && multiset(r) == multiset(s) + multiset{e}
  {
    var k := |s|;
    while k > 0 && less(e, s[k - 1])
      invariant 0 <= k <= |s|
      invariant forall i {:trigger s[i]} :: k <= i < |s| ==> less(e, s[i])
    {
      k := k - 1;
    }
    InsertedIsSorted(s, less, e, k);
    assert s == s[..k] + s[k..];
    r := s[..k] + [e] + s[k..];
  }

  method Sort<T(!new)>(s: seq<T>, less: (T, T) -> bool) returns (sorted: seq<T>)
    requires WeakOrder(less)
    ensures SortedBy(sorted, less) && multiset(sorted) == multiset(s)
  {
    sorted := [];
    for n := 0 to |s|
      invariant SortedBy(sorted, less) && multiset(sorted) == multiset(s[..n])
    {
      sorted := Insert(sorted, less, s[n]);
      assert s[..n + 1] == s[..n] + [s[n]];
    }
    assert s[..|s|] == s;
  }

  // ---------- strings ----------

  /** Byte by byte, as Go compares strings. */
  predicate StringLess(a: string, b: string) {
    if b == [] then false
    else if a == [] then true
    else if a[0] != b[0] then a[0] < b[0]
    else StringLess(a[1..], b[1..])
  }

  lemma {:induction false} NotLessTransitive(a: string, b: string, c: string)
    requires !StringLess(b, a) && !StringLess(c, b)
    ensures !StringLess(c, a)
  {
    if a != [] && b != [] && c != [] && a[0] == b[0] == c[0] {
      NotLessTransitive(a[1..], b[1..], c[1..]);
    }
  }

  lemma {:induction false} LessIsAsymmetric(a: string, b: string)
    requires StringLess(a, b)
    ensures !StringLess(b, a)
  {
    if a != [] && a[0] == b[0] { LessIsAsymmetric(a[1..], b[1..]); }
  }

  lemma StringsAreWeaklyOrdered()
    ensures WeakOrder(StringLess)
  {
    forall a, b | StringLess(a, b) ensures !StringLess(b, a) {
      LessIsAsymmetric(a, b);
    }
    forall a, b, c | !StringLess(b, a) && !StringLess(c, b) ensures !StringLess(c, a) {
      NotLessTransitive(a, b, c);
    }
  }
}
