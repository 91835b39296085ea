/** The elements of a list that belong to a set, in their order, and how many they are. */
module Filters {

  ghost function Filter<T(!new)>(s: seq<T>, kept: iset<T>): seq<T> {
    if s == [] then []
    else Filter(s[..|s| - 1], kept) + if s[|s| - 1] in kept then [s[|s| - 1]] else []
  }

  lemma {:induction false} FilterCount<T(!new)>(s: seq<T>, kept: iset<T>, x: T)
    ensures multiset(Filter(s, kept))[x] == if x in kept then multiset(s)[x] else 0
  {
    if s != [] {
      FilterCount(s[..|s| - 1], kept, x);
      assert s == s[..|s| - 1] + [s[|s| - 1]];
    }
  }

  lemma FilterPermuted<T(!new)>(a: seq<T>, b: seq<T>, kept: iset<T>)
    requires multiset(a) == multiset(b)
    ensures multiset(Filter(a, kept)) == multiset(Filter(b, kept)) && |Filter(a, kept)| == |Filter(b, kept)|
  {
    forall x ensures multiset(Filter(a, kept))[x] == multiset(Filter(b, kept))[x] {
      FilterCount(a, kept, x);
      FilterCount(b, kept, x);
    }
    assert |multiset(Filter(a, kept))| == |Filter(a, kept)| && |multiset(Filter(b, kept))| == |Filter(b, kept)|;
  }

  lemma {:induction false} FilterMembers<T(!new)>(s: seq<T>, kept: iset<T>, x: T)
    ensures x in Filter(s, kept) <==> x in s && x in kept
  {
    FilterCount(s, kept, x);
    assert x in Filter(s, kept) <==> x in multiset(Filter(s, kept));
    assert x in s <==> x in multiset(s);
  }

  lemma {:induction false} FilterPrefix<T(!new)>(s: seq<T>, kept: iset<T>, p: nat)
    requires p <= |s|
    ensures |Filter(s[..p], kept)| <= |Filter(s, kept)|
    ensures p < |s| && s[p] in kept ==> |Filter(s[..p], kept)| < |Filter(s, kept)|
  {
    if p < |s| {
      var n := |s| - 1;
      if p < n {
        FilterPrefix(s[..n], kept, p);
        assert s[..n][..p] == s[..p];
      }
    } else {
      assert s[..p] == s;
    }
  }

  lemma {:induction false} FilterWider<T(!new)>(s: seq<T>, kept: iset<T>, wider: iset<T>)
    requires forall x | x in s && x in kept :: x in wider
    ensures |Filter(s, kept)| <= |Filter(s, wider)|
  {
    if s != [] {
      FilterWider(s[..|s| - 1], kept, wider);
    }
  }

  lemma {:induction false} NothingAfter<T(!new)>(p: seq<T>, kept: iset<T>, c: nat)
    requires c <= |p| && forall d | c <= d < |p| :: p[d] !in kept
    ensures |Filter(p, kept)| <= c
  {
    if |p| > c {
      NothingAfter(p[..|p| - 1], kept, c);
    } else if p != [] {
      NothingAfter(p[..|p| - 1], kept, c - 1);
    }
  }

  lemma CountLast<T(!new)>(s: seq<T>, x: T)
    requires s != []
    ensures multiset(s)[x] == multiset(s[..|s| - 1])[x] + if s[|s| - 1] == x then 1 else 0
  {
    assert s == s[..|s| - 1] + [s[|s| - 1]];
  }
}
