/** Sorting posts by their `created_at` string, as Python's `list.sort(key=...)`
    and `list.sort(key=..., reverse=True)` do it: a stable sort, in which posts
    with equal keys keep their input order in both directions. */
module Sorting {
  import opened Records
  import opened Text
  import opened Seqs

  /** Whether `x` may stand before `y`: ascending compares the keys with `<=`,
      `reverse=True` compares them the other way round. */
  predicate Ordered(x: Post, y: Post, ascending: bool) {
    if ascending then LexLe(x.createdAt, y.createdAt) else LexLe(y.createdAt, x.createdAt)
  }

  predicate Sorted(s: seq<Post>, ascending: bool) {
    forall i, j :: 0 <= i < j < |s| ==> Ordered(s[i], s[j], ascending)
  }

  predicate AdjacentSorted(s: seq<Post>, ascending: bool) {
    forall i :: 0 < i < |s| ==> Ordered(s[i - 1], s[i], ascending)
  }

  /** The condition "was created at `key`". */
  function HasKey(key: string): Post -> bool {
    (p: Post) => p.createdAt == key
  }

  /** The posts of `s` created at `key`, in their order in `s`. */
  function SameKey(s: seq<Post>, key: string): seq<Post> {
    Filter(s, HasKey(key))
  }

  /** `r` is what a stable sort of `s` returns: `r` is sorted, and for every key the
      posts with that key appear in `r` in the same order as in `s`. */
  ghost predicate StablySorted(r: seq<Post>, s: seq<Post>, ascending: bool) {
    Sorted(r, ascending) && forall key :: SameKey(r, key) == SameKey(s, key)
  }

  lemma OrderedFacts(x: Post, y: Post, z: Post, ascending: bool)
    ensures x.createdAt == y.createdAt ==> Ordered(x, y, ascending)
    ensures Ordered(x, y, ascending) || Ordered(y, x, ascending)
    ensures Ordered(x, y, ascending) && Ordered(y, x, ascending) ==> x.createdAt == y.createdAt
    ensures Ordered(x, y, ascending) && Ordered(y, z, ascending) ==> Ordered(x, z, ascending)
  {
    LexLeReflexive(x.createdAt);
    LexLeTotal(x.createdAt, y.createdAt);
    if LexLe(x.createdAt, y.createdAt) && LexLe(y.createdAt, x.createdAt) {
      LexLeAntisymmetric(x.createdAt, y.createdAt);
    }
    if LexLe(x.createdAt, y.createdAt) && LexLe(y.createdAt, z.createdAt) {
      LexLeTransitive(x.createdAt, y.createdAt, z.createdAt);
    }
    if LexLe(z.createdAt, y.createdAt) && LexLe(y.createdAt, x.createdAt) {
      LexLeTransitive(z.createdAt, y.createdAt, x.createdAt);
    }
  }

  lemma {:induction false} AdjacentChain(s: seq<Post>, i: nat, j: nat, ascending: bool)
    requires AdjacentSorted(s, ascending) && i <= j < |s|
    ensures Ordered(s[i], s[j], ascending)
    decreases j - i
  {
    if i < j {
      AdjacentChain(s, i + 1, j, ascending);
      OrderedFacts(s[i], s[i + 1], s[j], ascending);
    } else {
      OrderedFacts(s[i], s[j], s[j], ascending);
    }
  }

  /** Comparing neighbours is enough: a list whose adjacent posts are ordered is sorted. */
  lemma AdjacentSortedIsSorted(s: seq<Post>, ascending: bool)
    requires AdjacentSorted(s, ascending)
    ensures Sorted(s, ascending)
  {
    forall i, j | 0 <= i < j < |s| ensures Ordered(s[i], s[j], ascending) {
      AdjacentChain(s, i, j, ascending);
    }
  }

  /** A stable sort permutes its input. */
  lemma StablySortedIsPermutation(r: seq<Post>, s: seq<Post>, ascending: bool)
    requires StablySorted(r, s, ascending)
    ensures multiset(r) == multiset(s)
  {
    forall x | true ensures multiset(r)[x] == multiset(s)[x] {
      FilterCount(r, HasKey(x.createdAt), x);
      FilterCount(s, HasKey(x.createdAt), x);
      assert SameKey(r, x.createdAt) == SameKey(s, x.createdAt);
    }
  }

  lemma SameKeyCons(x: Post, s: seq<Post>, key: string)
    ensures SameKey([x] + s, key) == (if x.createdAt == key then [x] else []) + SameKey(s, key)
  {
    assert ([x] + s)[1..] == s;
  }

  lemma SameKeyMembers(s: seq<Post>, key: string, x: Post)
    ensures x in SameKey(s, key) <==> x in s && x.createdAt == key
  {
    FilterMembers(s, HasKey(key));
  }

  /** The first post of a sorted list is ordered before every post of the list. */
  lemma FirstIsLeast(s: seq<Post>, x: Post, ascending: bool)
    requires Sorted(s, ascending) && s != [] && x in s
    ensures Ordered(s[0], x, ascending)
  {
    var j :| 0 <= j < |s| && s[j] == x;
    if j == 0 {
      OrderedFacts(x, x, x, ascending);
    }
  }

  /** The sort's result is determined: two sorted lists that agree, key by key, on
      the order of their posts are the same list. */
  lemma {:induction false} StablySortedUnique(a: seq<Post>, b: seq<Post>, ascending: bool)
    requires Sorted(a, ascending) && Sorted(b, ascending)
    requires forall key :: SameKey(a, key) == SameKey(b, key)
    ensures a == b
    decreases |a|
  {
    if a != [] {
      SameKeyMembers(a, a[0].createdAt, a[0]);
      SameKeyMembers(b, a[0].createdAt, a[0]);
    }
    if b != [] {
      SameKeyMembers(b, b[0].createdAt, b[0]);
      SameKeyMembers(a, b[0].createdAt, b[0]);
    }
    if a != [] && b != [] {
      var x, y := a[0], b[0];
      assert a == [x] + a[1..] && b == [y] + b[1..];
      FirstIsLeast(b, x, ascending);
      FirstIsLeast(a, y, ascending);
      OrderedFacts(x, y, y, ascending);
      var k := x.createdAt;
      SameKeyCons(x, a[1..], k);
      SameKeyCons(y, b[1..], k);
      assert SameKey(a, k)[0] == x && SameKey(b, k)[0] == y;
      forall key ensures SameKey(a[1..], key) == SameKey(b[1..], key) {
        SameKeyCons(x, a[1..], key);
        SameKeyCons(y, b[1..], key);
        var h := if k == key then [x] else [];
        assert SameKey(a, key) == h + SameKey(a[1..], key);
        assert SameKey(b, key) == h + SameKey(b[1..], key);
        assert (h + SameKey(a[1..], key))[|h|..] == SameKey(a[1..], key);
        assert (h + SameKey(b[1..], key))[|h|..] == SameKey(b[1..], key);
      }
      StablySortedUnique(a[1..], b[1..], ascending);
    }
  }

  /** Insertion of `x`, which comes later in the input than every post of `r`,
      behind every post it does not strictly precede. */
  function Insert(r: seq<Post>, x: Post, ascending: bool): (out: seq<Post>)
    ensures |out| == |r| + 1
    ensures out[|r|] == x || (r != [] && out[|r|] == r[|r| - 1])
  {
    if r == [] || Ordered(r[|r| - 1], x, ascending) then r + [x]
    else Insert(r[..|r| - 1], x, ascending) + [r[|r| - 1]]
  }

  /** The reference stable sort: insertion sort, one input post after the other. */
  function StableSort(s: seq<Post>, ascending: bool): (r: seq<Post>)
    ensures |r| == |s|
  {
    if s == [] then [] else Insert(StableSort(s[..|s| - 1], ascending), s[|s| - 1], ascending)
  }

  lemma {:induction false} InsertSorted(r: seq<Post>, x: Post, ascending: bool)
    requires AdjacentSorted(r, ascending)
    ensures AdjacentSorted(Insert(r, x, ascending), ascending)
    decreases |r|
  {
    if r != [] && !Ordered(r[|r| - 1], x, ascending) {
      var init := r[..|r| - 1];
      var y := r[|r| - 1];
      InsertSorted(init, x, ascending);
      var ins := Insert(init, x, ascending);
      OrderedFacts(x, y, y, ascending);
      assert Ordered(ins[|init|], y, ascending);
    }
  }

  lemma SameKeyPair(x: Post, y: Post, key: string)
    requires x.createdAt != y.createdAt
    ensures SameKey([x, y], key) == SameKey([y, x], key)
  {
    FilterCons(x, [y], HasKey(key));
    FilterCons(y, [x], HasKey(key));
    FilterCons(x, [], HasKey(key));
    FilterCons(y, [], HasKey(key));
    assert [x] + [y] == [x, y] && [y] + [x] == [y, x];
    assert [x] + [] == [x] && [y] + [] == [y];
  }

  lemma {:induction false} InsertKeys(r: seq<Post>, x: Post, ascending: bool, key: string)
    ensures SameKey(Insert(r, x, ascending), key) == SameKey(r + [x], key)
    decreases |r|
  {
    if r != [] && !Ordered(r[|r| - 1], x, ascending) {
      var init := r[..|r| - 1];
      var y := r[|r| - 1];
      var keep := HasKey(key);
      OrderedFacts(x, y, y, ascending);
      InsertKeys(init, x, ascending, key);
      assert r == init + [y];
      calc {
        SameKey(Insert(r, x, ascending), key);
        Filter(Insert(init, x, ascending) + [y], keep);
        { FilterConcat(Insert(init, x, ascending), [y], keep); }
        Filter(Insert(init, x, ascending), keep) + Filter([y], keep);
        Filter(init + [x], keep) + Filter([y], keep);
        { FilterConcat(init, [x], keep); }
        Filter(init, keep) + Filter([x], keep) + Filter([y], keep);
        { FilterConcat([x], [y], keep); assert [x] + [y] == [x, y]; }
        Filter(init, keep) + Filter([x, y], keep);
        { SameKeyPair(x, y, key); }
        Filter(init, keep) + Filter([y, x], keep);
        { FilterConcat([y], [x], keep); assert [y] + [x] == [y, x]; }
        Filter(init, keep) + Filter([y], keep) + Filter([x], keep);
        { FilterConcat(init, [y], keep); }
        Filter(r, keep) + Filter([x], keep);
        { FilterConcat(r, [x], keep); }
        SameKey(r + [x], key);
      }
    }
  }

  /** The reference sort is a stable sort. */
  lemma {:induction false} StableSortCorrect(s: seq<Post>, ascending: bool)
    ensures StablySorted(StableSort(s, ascending), s, ascending)
    ensures AdjacentSorted(StableSort(s, ascending), ascending)
    decreases |s|
  {
    if s != [] {
      var init := s[..|s| - 1];
      var x := s[|s| - 1];
      StableSortCorrect(init, ascending);
      var r := StableSort(init, ascending);
      InsertSorted(r, x, ascending);
      AdjacentSortedIsSorted(StableSort(s, ascending), ascending);
      assert StableSort(s, ascending) == Insert(r, x, ascending);
      assert s == init + [x];
      forall key ensures SameKey(StableSort(s, ascending), key) == SameKey(s, key) {
        calc {
          SameKey(Insert(r, x, ascending), key);
          { InsertKeys(r, x, ascending, key); }
          SameKey(r + [x], key);
          { FilterConcat(r, [x], HasKey(key)); }
          SameKey(r, key) + SameKey([x], key);
          SameKey(init, key) + SameKey([x], key);
          { FilterConcat(init, [x], HasKey(key)); }
          SameKey(s, key);
        }
      }
    }
  }

  /** Any stable sort of `s` is the reference sort of `s`. */
  lemma StablySortedIsStableSort(r: seq<Post>, s: seq<Post>, ascending: bool)
    requires StablySorted(r, s, ascending)
    ensures r == StableSort(s, ascending)
  {
    StableSortCorrect(s, ascending);
    StablySortedUnique(r, StableSort(s, ascending), ascending);
  }

  lemma SwapKeepsKeys(s: seq<Post>, j: int)
    requires 0 < j < |s| && s[j - 1].createdAt != s[j].createdAt
    ensures forall key :: SameKey(s[j - 1 := s[j]][j := s[j - 1]], key) == SameKey(s, key)
  {
    var t := s[j - 1 := s[j]][j := s[j - 1]];
    var pre, post := s[..j - 1], s[j + 1..];
    assert s == pre + [s[j - 1], s[j]] + post;
    assert t == pre + [s[j], s[j - 1]] + post;
    forall key ensures SameKey(t, key) == SameKey(s, key) {
      FilterConcat(pre + [s[j - 1], s[j]], post, HasKey(key));
      FilterConcat(pre + [s[j], s[j - 1]], post, HasKey(key));
      FilterConcat(pre, [s[j - 1], s[j]], HasKey(key));
      FilterConcat(pre, [s[j], s[j - 1]], HasKey(key));
      SameKeyPair(s[j - 1], s[j], key);
    }
  }

  /** Posts `j - 1` and `j` exchanged. */
  function Swap(s: seq<Post>, j: int): (t: seq<Post>)
    requires 0 < j < |s|
    ensures |t| == |s| && t[j - 1] == s[j] && t[j] == s[j - 1]
    ensures forall k :: 0 <= k < |s| && k != j - 1 && k != j ==> t[k] == s[k]
  {
    s[j - 1 := s[j]][j := s[j - 1]]
  }

  /** The state of insertion sort while post `i` sinks towards the front: it is now at
      `j`, the posts before it are in order, and so are the posts from it up to `i`. */
  ghost predicate Sinking(s: seq<Post>, i: int, j: int, ascending: bool) {
    0 <= j <= i < |s| &&
    AdjacentSorted(s[..j], ascending) && AdjacentSorted(s[j..i + 1], ascending) &&
    (0 < j < i ==> Ordered(s[j - 1], s[j + 1], ascending))
  }

  lemma SinkStep(s: seq<Post>, i: int, j: int, ascending: bool)
    requires Sinking(s, i, j, ascending) && j > 0 && !Ordered(s[j - 1], s[j], ascending)
    ensures Sinking(Swap(s, j), i, j - 1, ascending)
  {
    var t := Swap(s, j);
    OrderedFacts(s[j], s[j - 1], s[j - 1], ascending);
    assert t[..j - 1] == s[..j][..j - 1];
    var u, v := t[j - 1..i + 1], s[j..i + 1];
    forall k | 0 < k < |u| ensures Ordered(u[k - 1], u[k], ascending) {
      if k >= 3 {
        assert u[k - 1] == v[k - 2] && u[k] == v[k - 1];
      } else if k == 2 {
        assert u[k - 1] == s[j - 1] && u[k] == s[j + 1];
      }
    }
    if 0 < j - 1 {
      assert s[..j][j - 1] == s[j - 1] && s[..j][j - 2] == s[j - 2];
    }
  }

  lemma SinkDone(s: seq<Post>, i: int, j: int, ascending: bool)
    requires Sinking(s, i, j, ascending) && (j == 0 || Ordered(s[j - 1], s[j], ascending))
    ensures AdjacentSorted(s[..i + 1], ascending)
  {
    forall k | 0 < k < i + 1 ensures Ordered(s[k - 1], s[k], ascending) {
      if k < j {
        assert s[..j][k - 1] == s[k - 1] && s[..j][k] == s[k];
      } else if k > j {
        assert s[j..i + 1][k - j - 1] == s[k - 1] && s[j..i + 1][k - j] == s[k];
      }
    }
  }

  /** `s` and `t` hold the same posts for every key, in the same order. */
  ghost predicate SameKeys(s: seq<Post>, t: seq<Post>) {
    forall key :: SameKey(s, key) == SameKey(t, key)
  }

  /** `posts.sort(key=lambda x: x["created_at"], reverse=not ascending)`, in place:
      insertion sort by swaps of neighbours with different keys. */
  method SortByCreatedAt(a: array<Post>, ascending: bool)
    modifies a
    ensures StablySorted(a[..], old(a[..]), ascending)
  {
    var i := 0;
    while i < a.Length
      invariant 0 <= i <= a.Length
      invariant AdjacentSorted(a[..i], ascending)
      invariant SameKeys(a[..], old(a[..]))
    {
      var j := i;
      assert a[..i + 1][..i] == a[..i];
      while j > 0 && !Ordered(a[j - 1], a[j], ascending)
        invariant Sinking(a[..], i, j, ascending)
        invariant SameKeys(a[..], old(a[..]))
      {
        ghost var before := a[..];
        SinkStep(before, i, j, ascending);
        OrderedFacts(a[j], a[j - 1], a[j - 1], ascending);
        SwapKeepsKeys(before, j);
        a[j - 1], a[j] := a[j], a[j - 1];
        assert a[..] == Swap(before, j);
        j := j - 1;
      }
      SinkDone(a[..], i, j, ascending);
      i := i + 1;
    }
    assert a[..a.Length] == a[..];
    AdjacentSortedIsSorted(a[..], ascending);
  }
}
