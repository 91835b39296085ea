/** Snapshot retention (pkg/backup/snapshotter.go, DeleteOldSnapshots). */
module Retention {
  import opened Filters

  datatype Snapshot = Snapshot(name: string, createdAt: int)

  predicate OldestFirst(s: seq<Snapshot>) {
    forall i, j | 0 <= i < j < |s| :: s[i].createdAt <= s[j].createdAt
  }

  /**
    A pass that was shown `listed` and leaves `after` of `before`: along some oldest-first order of the
    listing exactly the first `deleted` are gone.  A pass that succeeds spares `maxCount` of the listed
    snapshots; one that fails stops earlier.
   */
  ghost predicate Retains(listed: multiset<Snapshot>, before: multiset<Snapshot>, after: multiset<Snapshot>, maxCount: nat, deleted: nat, ok: bool) {
    exists order :: OldestFirst(order) && multiset(order) == listed && RetainsAlong(order, before, after, maxCount, deleted, ok)
  }

  ghost predicate RetainsAlong(order: seq<Snapshot>, before: multiset<Snapshot>, after: multiset<Snapshot>, maxCount: nat, deleted: nat, ok: bool) {
    var surplus := if |order| > maxCount then |order| - maxCount else 0;
    && deleted <= surplus
    && (ok ==> deleted == surplus)
    && (!ok ==> deleted < surplus || deleted == 0)
    && multiset(order[..deleted]) <= before && after == before - multiset(order[..deleted])
  }

  /** The snapshots of one server in the API server, and in the cache that answers listings; the n-th call fails when `faults(n)`. */
  class SnapshotStore {
    const faults: nat -> bool
    var calls: nat
    var stored: seq<Snapshot>
    var cached: seq<Snapshot>

    constructor (faults: nat -> bool, stored: seq<Snapshot>, cached: seq<Snapshot>)
      ensures this.stored == stored && this.cached == cached
    {
      this.faults, this.stored, this.cached, calls := faults, stored, cached, 0;
    }

    method Call() returns (ok: bool)
      modifies this`calls
    {
      ok := !faults(calls);
      calls := calls + 1;
    }

    method Delete(s: Snapshot) returns (ok: bool)
      modifies this`calls, this`stored
      ensures ok ==> s in old(stored)
      ensures multiset(stored) == if ok then multiset(old(stored)) - multiset{s} else multiset(old(stored))
    {
      ok := Call();
      ok := ok && s in stored;
      if ok {
        var i :| 0 <= i < |stored| && stored[i] == s;
        assert stored == stored[..i] + [s] + stored[i + 1..];
        stored := stored[..i] + stored[i + 1..];
      }
    }

    method DeleteOldSnapshots(maxCount: nat) returns (deleted: nat, ok: bool)
      modifies this`calls, this`stored
      ensures Retains(multiset(cached), multiset(old(stored)), multiset(stored), maxCount, deleted, ok)
    {
      deleted := 0;
      ghost var before := multiset(stored);
      var list := cached;
      var order := SortOldestFirst(list);
      assert |order| == |list| by {
        assert |multiset(order)| == |multiset(list)|;
      }
      ok := Call();
      if !ok {
        assert RetainsAlong(order, before, before, maxCount, 0, false);
        return;
      }
      if |list| <= maxCount {
        assert RetainsAlong(order, before, before, maxCount, 0, true);
        return;
      }
      deleted, ok := DeleteFirst(order, |list| - maxCount);
      assert RetainsAlong(order, before, multiset(stored), maxCount, deleted, ok);
    }

    /** Deletes the first n of the snapshots in order, until a call fails. */
    method DeleteFirst(order: seq<Snapshot>, n: nat) returns (deleted: nat, ok: bool)
      requires n <= |order|
      modifies this`calls, this`stored
      ensures deleted <= n && (ok ==> deleted == n) && (!ok ==> deleted < n)
      ensures multiset(order[..deleted]) <= multiset(old(stored)) && multiset(stored) == multiset(old(stored)) - multiset(order[..deleted])
    {
      deleted := 0;
      ghost var before := multiset(stored);
      for i := 0 to n
        invariant deleted == i && multiset(order[..i]) <= before && multiset(stored) == before - multiset(order[..i])
      {
        OneMore(order, i);
        ok := Delete(order[i]);
        if !ok {
          return;
        }
        deleted := deleted + 1;
      }
      ok := true;
    }
  }

  lemma OneMore(order: seq<Snapshot>, i: nat)
    requires i < |order|
    ensures multiset(order[..i + 1]) == multiset(order[..i]) + multiset{order[i]}
  {
    assert order[..i + 1] == order[..i] + [order[i]];
  }

  function Insert(x: Snapshot, s: seq<Snapshot>): seq<Snapshot> {
    if s == [] || x.createdAt < s[0].createdAt then [x] + s else [s[0]] + Insert(x, s[1..])
  }

  lemma {:induction false} InsertSorts(x: Snapshot, s: seq<Snapshot>)
    requires OldestFirst(s)
    ensures OldestFirst(Insert(x, s))
  {
    if s != [] && x.createdAt >= s[0].createdAt {
      InsertSorts(x, s[1..]);
      InsertAdds(x, s[1..]);
      var t := Insert(x, s[1..]);
      forall j | 0 <= j < |t| ensures s[0].createdAt <= t[j].createdAt {
        assert t[j] in multiset(t);
      }
    }
  }

  lemma {:induction false} InsertAdds(x: Snapshot, s: seq<Snapshot>)
    ensures multiset(Insert(x, s)) == multiset(s) + multiset{x}
  {
    if s != [] && x.createdAt >= s[0].createdAt {
      HeadAndTail(s);
      InsertAdds(x, s[1..]);
    }
  }

  lemma HeadAndTail(s: seq<Snapshot>)
    requires s != []
    ensures multiset(s) == multiset{s[0]} + multiset(s[1..])
  {
    assert s == [s[0]] + s[1..];
  }

  /** Stands for the library's sort, of which only the oldest-first order is used. */
  method SortOldestFirst(list: seq<Snapshot>) returns (order: seq<Snapshot>)
    ensures OldestFirst(order) && multiset(order) == multiset(list)
  {
    order := [];
    for i := 0 to |list|
      invariant OldestFirst(order) && multiset(order) == multiset(list[..i])
    {
      InsertSorts(list[i], order);
      InsertAdds(list[i], order);
      assert list[..i + 1] == list[..i] + [list[i]];
      order := Insert(list[i], order);
    }
    assert list[..|list|] == list;
  }

  /** With an up-to-date listing: what is left plus what is gone is what there was, and nothing left is older than anything gone. */
  lemma RetentionConserves(before: multiset<Snapshot>, after: multiset<Snapshot>, maxCount: nat, deleted: nat, ok: bool)
    requires Retains(before, before, after, maxCount, deleted, ok)
    ensures after <= before && |before| == |after| + deleted
    ensures forall x, y | x in before - after && y in after :: x.createdAt <= y.createdAt
    ensures ok ==> |after| == if |before| <= maxCount then |before| else maxCount
  {
    var order :| OldestFirst(order) && multiset(order) == before && RetainsAlong(order, before, after, maxCount, deleted, ok);
    TailRemains(order, deleted);
    SplitConserves(order, deleted);
  }

  lemma TailRemains(order: seq<Snapshot>, deleted: nat)
    requires deleted <= |order|
    ensures multiset(order) - multiset(order[..deleted]) == multiset(order[deleted..])
    ensures |multiset(order[deleted..])| == |order| - deleted && |multiset(order)| == |order|
  {
    assert order == order[..deleted] + order[deleted..];
  }

  lemma SplitConserves(order: seq<Snapshot>, deleted: nat)
    requires OldestFirst(order) && deleted <= |order|
    ensures var (before, after) := (multiset(order), multiset(order[deleted..]));
            && after <= before && |before| == |order| && |after| == |order| - deleted
            && forall x, y | x in before - after && y in after :: x.createdAt <= y.createdAt
  {
    var before, after := multiset(order), multiset(order[deleted..]);
    assert order == order[..deleted] + order[deleted..];
    assert before - after == multiset(order[..deleted]);
    forall x, y | x in before - after && y in after ensures x.createdAt <= y.createdAt {
      assert x in order[..deleted] && y in order[deleted..];
    }
  }

  // ---------------------------------------------------------------- which snapshots a pass spares

  ghost function NotOlder(x: Snapshot): iset<Snapshot> {
    iset y: Snapshot | y.createdAt >= x.createdAt
  }

  /** How many snapshots are not older than x, x among them. */
  ghost function CountNotOlder(s: seq<Snapshot>, x: Snapshot): nat {
    |Filter(s, NotOlder(x))|
  }

  /**
    Creation times tie within a second, and then the order of deletion is open.  A pass spares a
    snapshot in every such order exactly when at most `maxCount` snapshots are not older.
   */
  lemma SparedIff(list: seq<Snapshot>, x: Snapshot, maxCount: nat)
    requires multiset(list)[x] == 1
    ensures (forall after, deleted, ok | Retains(multiset(list), multiset(list), after, maxCount, deleted, ok) :: x in after) <==> CountNotOlder(list, x) <= maxCount
  {
    if CountNotOlder(list, x) <= maxCount {
      forall after, deleted, ok | Retains(multiset(list), multiset(list), after, maxCount, deleted, ok) ensures x in after {
        RecentIsSpared(list, x, after, maxCount, deleted, ok);
      }
    } else {
      var after, deleted := TiesCanDelete(list, x, maxCount);
      assert !(x in after);
    }
  }

  lemma RecentIsSpared(list: seq<Snapshot>, x: Snapshot, after: multiset<Snapshot>, maxCount: nat, deleted: nat, ok: bool)
    requires x in list && CountNotOlder(list, x) <= maxCount
    requires Retains(multiset(list), multiset(list), after, maxCount, deleted, ok)
    ensures x in after
  {
    assert x in multiset(list);
    ListedRecentIsSpared(multiset(list), multiset(list), after, list, x, maxCount, deleted, ok);
  }

  /** From some place on everything passes the filter. */
  lemma {:induction false} AllKept(s: seq<Snapshot>, kept: iset<Snapshot>, i: nat)
    requires i <= |s| && forall j | i <= j < |s| :: s[j] in kept
    ensures |Filter(s, kept)| >= |s| - i
  {
    if i < |s| {
      AllKept(s[..|s| - 1], kept, i);
    }
  }

  lemma TiesCanDelete(list: seq<Snapshot>, x: Snapshot, maxCount: nat) returns (after: multiset<Snapshot>, deleted: nat)
    requires multiset(list)[x] == 1 && CountNotOlder(list, x) > maxCount
    ensures Retains(multiset(list), multiset(list), after, maxCount, deleted, true) && x !in after
  {
    var order, i := FirstAmongEquals(list, x);
    FilterPermuted(list, order, NotOlder(x));
    NothingBefore(order, NotOlder(x), i);
    deleted := |order| - maxCount;
    after := multiset(list) - multiset(order[..deleted]);
    assert order[..deleted][i] == x;
    SurplusGone(order, multiset(list), deleted);
    assert RetainsAlong(order, multiset(list), after, maxCount, deleted, true);
  }

  lemma SurplusGone(order: seq<Snapshot>, before: multiset<Snapshot>, deleted: nat)
    requires multiset(order) == before && deleted <= |order|
    ensures multiset(order[..deleted]) <= before
    ensures forall x | x in order[..deleted] && before[x] == 1 :: x !in before - multiset(order[..deleted])
  {
    assert order == order[..deleted] + order[deleted..];
    forall x | x in order[..deleted] && before[x] == 1 ensures x !in before - multiset(order[..deleted]) {
      assert x in multiset(order[..deleted]);
    }
  }

  lemma {:induction false} NothingBefore(s: seq<Snapshot>, kept: iset<Snapshot>, i: nat)
    requires i <= |s| && forall j | 0 <= j < i :: s[j] !in kept
    ensures |Filter(s, kept)| <= |s| - i
  {
    if |s| > i {
      NothingBefore(s[..|s| - 1], kept, i);
    } else if s != [] {
      NothingBefore(s[..|s| - 1], kept, i - 1);
    }
  }

  /** An oldest-first order in which x is the first of its time. */
  lemma {:induction false} FirstAmongEquals(list: seq<Snapshot>, x: Snapshot) returns (order: seq<Snapshot>, i: nat)
    requires x in list
    ensures OldestFirst(order) && multiset(order) == multiset(list)
    ensures i < |order| && order[i] == x && forall j | 0 <= j < i :: order[j].createdAt < x.createdAt
  {
    var k :| 0 <= k < |list| && list[k] == x;
    var rest := list[..k] + list[k + 1..];
    WithoutOne(list, k);
    SortedSorts(rest);
    hide OldestFirst, Sorted;
    i := FirstNotOlder(Sorted(rest), x);
    order := PutAt(Sorted(rest), x, i);
  }

  lemma WithoutOne(s: seq<Snapshot>, k: nat)
    requires k < |s|
    ensures multiset(s) == multiset(s[..k] + s[k + 1..]) + multiset{s[k]}
  {
    assert s == s[..k] + [s[k]] + s[k + 1..];
  }

  lemma PutAt(s: seq<Snapshot>, x: Snapshot, i: nat) returns (order: seq<Snapshot>)
    requires OldestFirst(s) && i <= |s|
    requires (forall j | 0 <= j < i :: s[j].createdAt <= x.createdAt) && forall j | i <= j < |s| :: x.createdAt <= s[j].createdAt
    ensures OldestFirst(order) && multiset(order) == multiset(s) + multiset{x}
    ensures i < |order| && order[i] == x && forall j | 0 <= j < i :: order[j] == s[j]
  {
    order := s[..i] + [x] + s[i..];
    AddedAt(s, x, i);
    forall j, k | 0 <= j < k < |order| ensures order[j].createdAt <= order[k].createdAt {
      assert order[j] == if j < i then s[j] else if j == i then x else s[j - 1];
      assert order[k] == if k < i then s[k] else if k == i then x else s[k - 1];
    }
  }

  lemma AddedAt(s: seq<Snapshot>, x: Snapshot, i: nat)
    requires i <= |s|
    ensures multiset(s[..i] + [x] + s[i..]) == multiset(s) + multiset{x}
  {
    assert s == s[..i] + s[i..];
  }

  lemma {:induction false} FirstNotOlder(s: seq<Snapshot>, x: Snapshot) returns (i: nat)
    requires OldestFirst(s)
    ensures i <= |s| && (forall j | 0 <= j < i :: s[j].createdAt < x.createdAt) && forall j | i <= j < |s| :: x.createdAt <= s[j].createdAt
  {
    if s == [] || s[0].createdAt >= x.createdAt {
      i := 0;
    } else {
      i := FirstNotOlder(s[1..], x);
      i := i + 1;
      assert forall j | 1 <= j < |s| :: s[j] == s[1..][j - 1];
    }
  }

  function Sorted(s: seq<Snapshot>): seq<Snapshot> {
    if s == [] then [] else Insert(s[0], Sorted(s[1..]))
  }

  lemma {:induction false} SortedSorts(s: seq<Snapshot>)
    ensures OldestFirst(Sorted(s)) && multiset(Sorted(s)) == multiset(s)
  {
    if s != [] {
      SortedSorts(s[1..]);
      InsertSorts(s[0], Sorted(s[1..]));
      InsertAdds(s[0], Sorted(s[1..]));
      HeadAndTail(s);
    }
  }

  /** Two snapshots of the same second and a limit of one: the one that was created last can be deleted. */
  lemma TieLosesNewest()
    ensures var first, last := Snapshot("a", 0), Snapshot("b", 0);
            Retains(multiset{first, last}, multiset{first, last}, multiset{first}, 1, 1, true)
  {
    var first, last := Snapshot("a", 0), Snapshot("b", 0);
    var order := [last, first];
    assert multiset(order) == multiset{first, last} && order[..1] == [last];
    assert RetainsAlong(order, multiset{first, last}, multiset{first}, 1, 1, true);
  }

  // ---------------------------------------------------------------- over runs of backups

  /** All snapshots ever created, in the order of their creation, and those still stored. */
  datatype State = State(created: seq<Snapshot>, stored: multiset<Snapshot>)

  /** Creation times do not go back, but may be equal. */
  ghost predicate Creates(s: State, t: State) {
    && |t.created| == |s.created| + 1 && t.created[..|s.created|] == s.created
    && (forall x | x in s.created :: x != t.created[|s.created|] && x.createdAt <= t.created[|s.created|].createdAt)
    && t.stored == s.stored + multiset{t.created[|s.created|]}
  }

  /** A pass whose listing shows what was stored in the k-th state, with a limit of its own. */
  ghost predicate Prunes(ss: seq<State>, i: nat, k: nat, maxCount: nat)
    requires k <= i < |ss| - 1
  {
    && ss[i + 1].created == ss[i].created
    && Passes(ss[k].stored, ss[i].stored, ss[i + 1].stored, maxCount)
  }

  ghost predicate Passes(listed: multiset<Snapshot>, before: multiset<Snapshot>, after: multiset<Snapshot>, maxCount: nat) {
    exists limit: nat, deleted, ok :: limit >= maxCount && Retains(listed, before, after, limit, deleted, ok)
  }

  /** Backups and retention passes, with limits of at least `maxCount` and listings that may be stale. */
  ghost predicate IsHistory(ss: seq<State>, maxCount: nat) {
    && ss != [] && ss[0] == State([], multiset{})
    && forall i: nat | i < |ss| - 1 :: IsChange(ss, i, maxCount)
  }

  ghost predicate IsChange(ss: seq<State>, i: nat, maxCount: nat)
    requires i < |ss| - 1
  {
    Creates(ss[i], ss[i + 1]) || exists k: nat | k <= i :: Prunes(ss, i, k, maxCount)
  }

  /** Every snapshot is a different one, and nothing stored is older than anything deleted. */
  ghost predicate KeepsNewest(s: State) {
    && (forall x :: multiset(s.created)[x] <= 1)
    && s.stored <= multiset(s.created)
    && forall x, y | x in multiset(s.created) - s.stored && y in s.stored :: x.createdAt <= y.createdAt
  }

  lemma CreateKeepsNewest(s: State, t: State)
    requires KeepsNewest(s) && Creates(s, t)
    ensures KeepsNewest(t)
  {
    var x := t.created[|s.created|];
    assert t.created == s.created + [x];
    assert multiset(t.created) == multiset(s.created) + multiset{x};
    assert multiset(t.created) - t.stored == multiset(s.created) - s.stored;
    forall y | y in multiset(s.created) - s.stored ensures y.createdAt <= x.createdAt {
      assert y in multiset(s.created);
    }
    assert x !in multiset(s.created);
  }

  /** What is stored later was stored at state k, or is not older than anything created by then. */
  ghost predicate OnlyLater(s: State, t: State) {
    && (forall x | x in s.created :: x in t.created)
    && forall x, y | x in s.created && y in t.stored && y !in s.stored :: x.createdAt <= y.createdAt
  }

  lemma {:induction false} LaterStates(ss: seq<State>, maxCount: nat, k: nat, n: nat)
    requires IsHistory(ss, maxCount) && k <= n < |ss|
    ensures OnlyLater(ss[k], ss[n])
  {
    if k < n {
      LaterStates(ss, maxCount, k, n - 1);
      assert IsChange(ss, n - 1, maxCount);
      var s, t := ss[n - 1], ss[n];
      if Creates(s, t) {
        assert t.created == s.created + [t.created[|s.created|]];
      } else {
        assert t.stored <= s.stored;
      }
    }
  }

  lemma PruneKeepsNewest(listed: State, s: State, t: State, maxCount: nat)
    requires KeepsNewest(s) && OnlyLater(listed, s) && t.created == s.created
    requires listed.stored <= multiset(listed.created)
    requires Passes(listed.stored, s.stored, t.stored, maxCount)
    ensures KeepsNewest(t)
  {
    var order, gone := GoneFirst(listed.stored, s.stored, t.stored, maxCount);
    var deleted := multiset(order[..gone]);
    forall x, y | x in multiset(t.created) - t.stored && y in t.stored ensures x.createdAt <= y.createdAt {
      assert y in s.stored;
      if x in deleted {
        GoneIsOldest(order, gone, x, y, listed.stored, s.stored);
        assert y in listed.stored || x in multiset(listed.created);
      } else {
        assert x in multiset(s.created) - s.stored;
      }
    }
  }

  lemma GoneFirst(listed: multiset<Snapshot>, before: multiset<Snapshot>, after: multiset<Snapshot>, maxCount: nat)
    returns (order: seq<Snapshot>, gone: nat)
    requires Passes(listed, before, after, maxCount)
    ensures OldestFirst(order) && multiset(order) == listed && gone <= |order|
    ensures multiset(order[..gone]) <= before && after == before - multiset(order[..gone])
  {
    var limit: nat, deleted, ok :| limit >= maxCount && Retains(listed, before, after, limit, deleted, ok);
    order :| OldestFirst(order) && multiset(order) == listed && RetainsAlong(order, before, after, limit, deleted, ok);
    gone := deleted;
  }

  /** What a pass deletes is not newer than anything listed that it leaves. */
  lemma GoneIsOldest(order: seq<Snapshot>, deleted: nat, x: Snapshot, y: Snapshot, listed: multiset<Snapshot>, before: multiset<Snapshot>)
    requires OldestFirst(order) && multiset(order) == listed && deleted <= |order|
    requires before[y] <= 1 && x in order[..deleted] && y in before - multiset(order[..deleted])
    ensures x in listed && (y in listed ==> x.createdAt <= y.createdAt)
  {
    var i :| 0 <= i < deleted && order[i] == x;
    assert order[i] in multiset(order);
    if y in listed {
      assert y in multiset(order);
      var j :| 0 <= j < |order| && order[j] == y;
    }
  }

  /** The above holds over any run of backups and retention passes, failing and misinformed passes included. */
  lemma {:induction false} HistoryKeepsNewest(ss: seq<State>, maxCount: nat, n: nat)
    requires IsHistory(ss, maxCount) && n < |ss|
    ensures KeepsNewest(ss[n])
  {
    if n > 0 {
      HistoryKeepsNewest(ss, maxCount, n - 1);
      assert IsChange(ss, n - 1, maxCount);
      if Creates(ss[n - 1], ss[n]) {
        CreateKeepsNewest(ss[n - 1], ss[n]);
      } else {
        var k: nat :| k <= n - 1 && Prunes(ss, n - 1, k, maxCount);
        HistoryKeepsNewest(ss, maxCount, k);
        LaterStates(ss, maxCount, k, n - 1);
        PruneKeepsNewest(ss[k], ss[n - 1], ss[n], maxCount);
      }
    }
  }

  /** Over any run a snapshot survives while at most `maxCount` of those ever created are not older. */
  lemma {:induction false} RecentSurvives(ss: seq<State>, maxCount: nat, n: nat, x: Snapshot)
    requires IsHistory(ss, maxCount) && n < |ss|
    requires x in ss[n].created && CountNotOlder(ss[n].created, x) <= maxCount
    ensures x in ss[n].stored
  {
    var s, t := ss[n - 1], ss[n];
    assert IsChange(ss, n - 1, maxCount);
    if Creates(s, t) {
      assert t.created == s.created + [t.created[|s.created|]];
      if x in s.created {
        RecentSurvives(ss, maxCount, n - 1, x);
      }
    } else {
      RecentSurvives(ss, maxCount, n - 1, x);
      var k: nat :| k <= n - 1 && Prunes(ss, n - 1, k, maxCount);
      var limit: nat, deleted, ok :| limit >= maxCount && Retains(ss[k].stored, s.stored, t.stored, limit, deleted, ok);
      HistoryKeepsNewest(ss, maxCount, k);
      HistoryKeepsNewest(ss, maxCount, n - 1);
      LaterStates(ss, maxCount, k, n - 1);
      ListedIsCreated(ss[k], s);
      ListedRecentIsSpared(ss[k].stored, s.stored, t.stored, s.created, x, limit, deleted, ok);
    }
  }

  lemma ListedIsCreated(listed: State, s: State)
    requires KeepsNewest(listed) && KeepsNewest(s) && OnlyLater(listed, s)
    ensures listed.stored <= multiset(s.created)
  {
    forall x ensures listed.stored[x] <= multiset(s.created)[x] {
      if x in listed.stored {
        assert x in multiset(listed.created);
        assert x in s.created;
      }
    }
  }

  lemma ListedRecentIsSpared(listed: multiset<Snapshot>, before: multiset<Snapshot>, after: multiset<Snapshot>, created: seq<Snapshot>,
                             x: Snapshot, limit: nat, deleted: nat, ok: bool)
    requires Retains(listed, before, after, limit, deleted, ok) && listed <= multiset(created)
    requires x in before && CountNotOlder(created, x) <= limit
    ensures x in after
  {
    var order :| OldestFirst(order) && multiset(order) == listed && RetainsAlong(order, before, after, limit, deleted, ok);
    RecentIsNotFirst(order, created, x, limit, deleted);
    assert before[x] > 0 && multiset(order[..deleted])[x] == 0;
  }

  lemma RecentIsNotFirst(order: seq<Snapshot>, created: seq<Snapshot>, x: Snapshot, limit: nat, deleted: nat)
    requires OldestFirst(order) && multiset(order) <= multiset(created)
    requires CountNotOlder(created, x) <= limit && (deleted == 0 || deleted + limit <= |order|)
    ensures x !in order[..deleted]
  {
    forall i: nat | i < deleted ensures order[i] != x {
      if order[i] == x {
        AllKept(order, NotOlder(x), i);
        FilterSmaller(order, created, NotOlder(x));
      }
    }
  }

  lemma FilterSmaller(a: seq<Snapshot>, b: seq<Snapshot>, kept: iset<Snapshot>)
    requires multiset(a) <= multiset(b)
    ensures |Filter(a, kept)| <= |Filter(b, kept)|
  {
    var smaller, larger := multiset(Filter(a, kept)), multiset(Filter(b, kept));
    forall z ensures smaller[z] <= larger[z] {
      FilterCount(a, kept, z);
      FilterCount(b, kept, z);
    }
    SmallerIsNoLarger(smaller, larger);
  }

  lemma SmallerIsNoLarger(a: multiset<Snapshot>, b: multiset<Snapshot>)
    requires a <= b
    ensures |a| <= |b|
  {
    assert b == a + (b - a);
  }

  /** With a positive limit a snapshot strictly newer than all others survives every run, whatever ties the others have. */
  lemma NewestSurvives(ss: seq<State>, maxCount: nat, n: nat, x: Snapshot)
    requires IsHistory(ss, maxCount) && n < |ss| && maxCount > 0
    requires x in ss[n].created && forall y | y in ss[n].created && y != x :: y.createdAt < x.createdAt
    ensures x in ss[n].stored
  {
    HistoryKeepsNewest(ss, maxCount, n);
    var newer := Filter(ss[n].created, NotOlder(x));
    forall z ensures multiset(newer)[z] <= multiset{x}[z] {
      FilterCount(ss[n].created, NotOlder(x), z);
    }
    SmallerIsNoLarger(multiset(newer), multiset{x});
    RecentSurvives(ss, maxCount, n, x);
  }

  // ---------------------------------------------------------------- the limit over runs

  ghost predicate NoTies(s: seq<Snapshot>) {
    forall i, j | 0 <= i < j < |s| :: s[i].createdAt < s[j].createdAt
  }

  /** Every pass saw what was stored. */
  ghost predicate SeesStored(ss: seq<State>, maxCount: nat) {
    forall i: nat | i < |ss| - 1 :: Creates(ss[i], ss[i + 1]) || Prunes(ss, i, i, maxCount)
  }

  ghost predicate AtLimit(s: State, maxCount: nat) {
    |s.stored| >= if |s.created| <= maxCount then |s.created| else maxCount
  }

  /** No run deletes below the limit if creation times differ, or if the listings are up to date. */
  lemma LimitIsKept(ss: seq<State>, maxCount: nat, n: nat)
    requires IsHistory(ss, maxCount) && n < |ss|
    requires NoTies(ss[n].created) || SeesStored(ss, maxCount)
    ensures AtLimit(ss[n], maxCount)
  {
    if SeesStored(ss, maxCount) {
      SeenLimitIsKept(ss, maxCount, n);
    } else {
      NewestAreStored(ss, maxCount, n);
    }
  }

  lemma {:induction false} SeenLimitIsKept(ss: seq<State>, maxCount: nat, n: nat)
    requires IsHistory(ss, maxCount) && SeesStored(ss, maxCount) && n < |ss|
    ensures AtLimit(ss[n], maxCount)
  {
    if n > 0 {
      SeenLimitIsKept(ss, maxCount, n - 1);
      var s, t := ss[n - 1], ss[n];
      if !Creates(s, t) {
        assert Prunes(ss, n - 1, n - 1, maxCount);
        var limit: nat, deleted, ok :| limit >= maxCount && Retains(s.stored, s.stored, t.stored, limit, deleted, ok);
        RetentionConserves(s.stored, t.stored, limit, deleted, ok);
        LimitOfPass(s.stored, t.stored, limit, deleted, ok);
      }
    }
  }

  lemma LimitOfPass(before: multiset<Snapshot>, after: multiset<Snapshot>, maxCount: nat, deleted: nat, ok: bool)
    requires Retains(before, before, after, maxCount, deleted, ok)
    ensures before == after || |after| >= maxCount
  {
    var order :| OldestFirst(order) && multiset(order) == before && RetainsAlong(order, before, after, maxCount, deleted, ok);
    TailRemains(order, deleted);
  }

  lemma NewestAreStored(ss: seq<State>, maxCount: nat, n: nat)
    requires IsHistory(ss, maxCount) && n < |ss| && NoTies(ss[n].created)
    ensures AtLimit(ss[n], maxCount)
  {
    var created, stored := ss[n].created, ss[n].stored;
    var first := if |created| <= maxCount then 0 else |created| - maxCount;
    HistoryKeepsNewest(ss, maxCount, n);
    forall i: nat | first <= i < |created| ensures created[i] in stored {
      NothingBefore(created, NotOlder(created[i]), i);
      RecentSurvives(ss, maxCount, n, created[i]);
    }
    AllStored(created, stored, first);
  }

  lemma AllStored(created: seq<Snapshot>, stored: multiset<Snapshot>, first: nat)
    requires first <= |created| && (forall x :: multiset(created)[x] <= 1) && forall i: nat | first <= i < |created| :: created[i] in stored
    ensures |stored| >= |created| - first
  {
    var newest := created[first..];
    assert created == created[..first] + newest;
    forall x ensures multiset(newest)[x] <= stored[x] {
      assert multiset(newest)[x] <= multiset(created)[x];
      if x in multiset(newest) {
        var i :| 0 <= i < |newest| && newest[i] == x;
        assert x == created[first + i];
      }
    }
    SmallerIsNoLarger(multiset(newest), stored);
    assert |multiset(newest)| == |newest|;
  }

  /** Any two snapshots of one second, a limit of one and a second pass that still sees both: nothing is left. */
  lemma StaleTieLosesAll(a: Snapshot, b: Snapshot) returns (ss: seq<State>)
    requires a != b && a.createdAt == b.createdAt
    ensures IsHistory(ss, 1) && |ss| == 5 && ss[4] == State([a, b], multiset{})
  {
    var both := multiset{a, b};
    ss := BothCreated(a, b);
    hide IsHistory, Passes;
    FirstGoes(a, b, both, multiset{b}) by {
      assert both - multiset{a} == multiset{b};
    }
    ss := Pruned(ss, 2, multiset{b}, 1);
    FirstGoes(b, a, multiset{b}, multiset{}) by {
      assert multiset{b} - multiset{b} == multiset{};
    }
    assert multiset{b, a} == both;
    ss := Pruned(ss, 2, multiset{}, 1);
  }

  lemma BothCreated(a: Snapshot, b: Snapshot) returns (ss: seq<State>)
    requires a != b && a.createdAt == b.createdAt
    ensures IsHistory(ss, 1) && |ss| == 3 && ss[2] == State([a, b], multiset{a, b})
  {
    ss := [State([], multiset{})];
    assert IsHistory(ss, 1);
    hide IsHistory;
    ss := Created(ss, a, 1);
    assert ss[1] == State([a], multiset{a});
    ss := Created(ss, b, 1);
    assert [a] + [b] == [a, b] && multiset{a} + multiset{b} == multiset{a, b};
  }

  lemma Created(ss: seq<State>, x: Snapshot, maxCount: nat) returns (tt: seq<State>)
    requires IsHistory(ss, maxCount)
    requires forall y | y in ss[|ss| - 1].created :: y != x && y.createdAt <= x.createdAt
    ensures IsHistory(tt, maxCount) && |tt| == |ss| + 1 && tt[..|ss|] == ss
    ensures tt[|ss|] == State(ss[|ss| - 1].created + [x], ss[|ss| - 1].stored + multiset{x})
  {
    var s := ss[|ss| - 1];
    var t := State(s.created + [x], s.stored + multiset{x});
    tt := ss + [t];
    assert t.created[..|s.created|] == s.created;
    assert Creates(s, t);
    assert IsChange(tt, |ss| - 1, maxCount);
    StillHistory(ss, tt, maxCount);
  }

  lemma Pruned(ss: seq<State>, k: nat, after: multiset<Snapshot>, maxCount: nat) returns (tt: seq<State>)
    requires IsHistory(ss, maxCount) && k < |ss| && Passes(ss[k].stored, ss[|ss| - 1].stored, after, maxCount)
    ensures IsHistory(tt, maxCount) && |tt| == |ss| + 1 && tt[..|ss|] == ss
    ensures tt[|ss|] == State(ss[|ss| - 1].created, after)
  {
    tt := ss + [State(ss[|ss| - 1].created, after)];
    assert Prunes(tt, |ss| - 1, k, maxCount);
    assert IsChange(tt, |ss| - 1, maxCount);
    StillHistory(ss, tt, maxCount);
  }

  lemma StillHistory(ss: seq<State>, tt: seq<State>, maxCount: nat)
    requires IsHistory(ss, maxCount) && |tt| == |ss| + 1 && tt[..|ss|] == ss && IsChange(tt, |ss| - 1, maxCount)
    ensures IsHistory(tt, maxCount)
  {
    forall i: nat | i < |tt| - 1 ensures IsChange(tt, i, maxCount) {
      if i < |ss| - 1 {
        assert tt[i] == ss[i] && tt[i + 1] == ss[i + 1];
        assert IsChange(ss, i, maxCount);
        if !Creates(ss[i], ss[i + 1]) {
          var k: nat :| k <= i && Prunes(ss, i, k, maxCount);
          assert tt[k] == ss[k];
          assert Prunes(tt, i, k, maxCount);
        }
      }
    }
    assert tt[0] == ss[0];
  }

  lemma FirstGoes(x: Snapshot, y: Snapshot, before: multiset<Snapshot>, after: multiset<Snapshot>)
    requires x.createdAt <= y.createdAt && x in before && after == before - multiset{x}
    ensures Passes(multiset{x, y}, before, after, 1)
  {
    var order := [x, y];
    assert order[..1] == [x] && multiset(order) == multiset{x, y};
    assert RetainsAlong(order, before, after, 1, 1, true);
    assert Retains(multiset{x, y}, before, after, 1, 1, true);
  }
}
