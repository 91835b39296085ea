/**
  When the solver's searches find the maximum (pkg/solver/simple_solver.go).  An unparseable version
  keeps its place in the sort, so the question is how many parseable versions stand before it.
 */
module SearchExactness {
  import opened Wrappers
  import opened Semver
  import opened Versions
  import opened Solver
  import opened Filters

  ghost function Ranked<T(!new)>(rank: T -> Option<Version>): iset<T> {
    iset x: T | rank(x).Some?
  }

  /** Ranked elements that are not good and that nothing good outranks: they may all come before the first good ranked one. */
  ghost function Blockers<T(!new)>(s: seq<T>, rank: T -> Option<Version>, good: iset<T>): iset<T> {
    iset x: T | rank(x).Some? && x !in good && forall y | y in s && y in good && rank(y).Some? :: InOrder(x, y, rank)
  }

  ghost predicate HasRanked<T(!new)>(s: seq<T>, rank: T -> Option<Version>, good: iset<T>) {
    exists x :: x in s && x in good && rank(x).Some?
  }

  /** Before each good unranked element there are more ranked places than there are blockers. */
  ghost predicate Shielded<T(!new)>(s: seq<T>, rank: T -> Option<Version>, good: iset<T>) {
    forall p | 0 <= p < |s| && s[p] in good && rank(s[p]).None? ::
      |Filter(s[..p], Ranked(rank))| > |Filter(s, Blockers(s, rank, good))|
  }

  // ---------------------------------------------------------------- shielded lists are searched right

  lemma {:induction false} RankedPlaces<T(!new)>(before: seq<T>, after: seq<T>, rank: T -> Option<Version>, p: nat)
    requires Kept(before, after, rank) && p <= |before|
    ensures |Filter(before[..p], Ranked(rank))| == |Filter(after[..p], Ranked(rank))|
  {
    if p > 0 {
      RankedPlaces(before, after, rank, p - 1);
      assert before[..p][..p - 1] == before[..p - 1] && after[..p][..p - 1] == after[..p - 1];
    }
  }

  lemma ShieldedIsMaximal<T(!new)>(before: seq<T>, after: seq<T>, rank: T -> Option<Version>, good: iset<T>)
    requires Arranged(before, after, rank) && Shielded(before, rank, good)
    ensures SearchIsMaximal(after, rank, good)
  {
    if x :| x in after && x in good && rank(x).Some? {
      var j :| 0 <= j < |after| && after[j] == x;
      var k := FirstExists(after, good, j);
      if rank(after[k]).None? {
        OnlyBlockersBefore(before, after, rank, good, k);
        assert false;
      }
      FirstOfArrangedIsMaximal(before, after, rank, good, k);
      forall y | y in after && y in good && rank(y).Some? ensures InOrder(after[k], y, rank) {
        ArrangedMembers(before, after, rank, y);
      }
    }
  }

  lemma OnlyBlockersBefore<T(!new)>(before: seq<T>, after: seq<T>, rank: T -> Option<Version>, good: iset<T>, k: nat)
    requires Arranged(before, after, rank) && IsFirst(after, good, k) && rank(after[k]).None?
    ensures before[k] in good && rank(before[k]).None?
    ensures |Filter(before[..k], Ranked(rank))| <= |Filter(before, Blockers(before, rank, good))|
  {
    var blockers := Blockers(before, rank, good);
    forall x | x in after[..k] && x in Ranked(rank) ensures x in blockers {
      var i :| 0 <= i < k && after[i] == x;
      forall y | y in before && y in good && rank(y).Some? ensures InOrder(x, y, rank) {
        ArrangedMembers(before, after, rank, y);
        var m :| 0 <= m < |after| && after[m] == y;
      }
    }
    FilterWider(after[..k], Ranked(rank), blockers);
    FilterPrefix(after, blockers, k);
    FilterPermuted(before, after, blockers);
    RankedPlaces(before, after, rank, k);
  }

  // ---------------------------------------------------------------- an arrangement that puts good elements last among equals

  ghost predicate Ahead<T(!new)>(x: T, y: T, rank: T -> Option<Version>, good: iset<T>)
    requires rank(x).Some? && rank(y).Some?
  {
    var c := Precedence(rank(x).value, rank(y).value);
    c > 0 || (c == 0 && (x in good ==> y in good))
  }

  ghost predicate AllRanked<T(!new)>(s: seq<T>, rank: T -> Option<Version>) {
    forall x | x in s :: rank(x).Some?
  }

  ghost predicate GoodLast<T(!new)>(s: seq<T>, rank: T -> Option<Version>, good: iset<T>)
    requires AllRanked(s, rank)
  {
    forall i, j | 0 <= i < j < |s| :: Ahead(s[i], s[j], rank, good)
  }

  lemma AheadOrder<T(!new)>(x: T, y: T, z: T, rank: T -> Option<Version>, good: iset<T>)
    requires rank(x).Some? && rank(y).Some? && rank(z).Some?
    ensures Ahead(x, y, rank, good) || Ahead(y, x, rank, good)
    ensures Ahead(x, y, rank, good) && Ahead(y, z, rank, good) ==> Ahead(x, z, rank, good)
    ensures Ahead(x, y, rank, good) ==> InOrder(x, y, rank)
  {
    PrecedenceIsTotalOrder(rank(x).value, rank(y).value, rank(z).value);
    PrecedenceIsTotalOrder(rank(z).value, rank(y).value, rank(x).value);
    PrecedenceIsTotalOrder(rank(y).value, rank(x).value, rank(x).value);
    PrecedenceIsTotalOrder(rank(z).value, rank(x).value, rank(x).value);
    if Ahead(x, y, rank, good) && Ahead(y, z, rank, good) {
      assert AtMost(rank(z).value, rank(y).value) && AtMost(rank(y).value, rank(x).value);
      assert AtMost(rank(z).value, rank(x).value);
      if Precedence(rank(x).value, rank(z).value) == 0 {
        assert rank(x) == rank(z);
      }
    }
  }

  ghost function InsertInto<T(!new)>(x: T, s: seq<T>, rank: T -> Option<Version>, good: iset<T>): seq<T>
    requires rank(x).Some? && AllRanked(s, rank)
  {
    if s == [] || Ahead(x, s[0], rank, good) then [x] + s else [s[0]] + InsertInto(x, s[1..], rank, good)
  }

  lemma {:induction false} InsertAdds<T(!new)>(x: T, s: seq<T>, rank: T -> Option<Version>, good: iset<T>)
    requires rank(x).Some? && AllRanked(s, rank)
    ensures multiset(InsertInto(x, s, rank, good)) == multiset(s) + multiset{x}
    ensures AllRanked(InsertInto(x, s, rank, good), rank)
  {
    if s != [] && !Ahead(x, s[0], rank, good) {
      assert s == [s[0]] + s[1..];
      InsertAdds(x, s[1..], rank, good);
    }
    var t := InsertInto(x, s, rank, good);
    forall y | y in t ensures rank(y).Some? {
      assert y in multiset(t);
    }
  }

  lemma {:induction false} InsertKeepsOrder<T(!new)>(x: T, s: seq<T>, rank: T -> Option<Version>, good: iset<T>)
    requires rank(x).Some? && AllRanked(s, rank) && GoodLast(s, rank, good)
    ensures AllRanked(InsertInto(x, s, rank, good), rank) && GoodLast(InsertInto(x, s, rank, good), rank, good)
  {
    InsertAdds(x, s, rank, good);
    if s != [] {
      if Ahead(x, s[0], rank, good) {
        forall j | 0 <= j < |s| ensures Ahead(x, s[j], rank, good) {
          AheadOrder(x, s[0], s[j], rank, good);
        }
      } else {
        AheadOrder(x, s[0], x, rank, good);
        InsertKeepsOrder(x, s[1..], rank, good);
        InsertAdds(x, s[1..], rank, good);
        var t := InsertInto(x, s[1..], rank, good);
        forall y | y in t ensures Ahead(s[0], y, rank, good) {
          assert y in multiset(t);
          assert y == x || y in s[1..];
        }
      }
    }
  }

  lemma {:induction false} SortGoodLast<T(!new)>(s: seq<T>, rank: T -> Option<Version>, good: iset<T>) returns (t: seq<T>)
    requires AllRanked(s, rank)
    ensures AllRanked(t, rank) && multiset(t) == multiset(s) && GoodLast(t, rank, good)
  {
    if s == [] {
      t := [];
    } else {
      assert s == [s[0]] + s[1..];
      var u := SortGoodLast(s[1..], rank, good);
      InsertAdds(s[0], u, rank, good);
      InsertKeepsOrder(s[0], u, rank, good);
      t := InsertInto(s[0], u, rank, good);
    }
  }

  /** The list with its ranked elements replaced, in order, by those of p. */
  ghost function Fill<T(!new)>(s: seq<T>, rank: T -> Option<Version>, p: seq<T>): seq<T>
    requires |p| == |Filter(s, Ranked(rank))|
  {
    if s == [] then []
    else
      var n := |s| - 1;
      if rank(s[n]).Some? then Fill(s[..n], rank, p[..|p| - 1]) + [p[|p| - 1]]
      else Fill(s[..n], rank, p) + [s[n]]
  }

  lemma {:induction false} FillPlaces<T(!new)>(s: seq<T>, rank: T -> Option<Version>, p: seq<T>, i: nat)
    requires |p| == |Filter(s, Ranked(rank))| && i < |s|
    ensures |Fill(s, rank, p)| == |s|
    ensures |Filter(s[..i], Ranked(rank))| <= |p| && (rank(s[i]).Some? ==> |Filter(s[..i], Ranked(rank))| < |p|)
    ensures Fill(s, rank, p)[i] == if rank(s[i]).Some? then p[|Filter(s[..i], Ranked(rank))|] else s[i]
    decreases |s|
  {
    var n := |s| - 1;
    FilterPrefix(s, Ranked(rank), i);
    FillLength(s[..n], rank, if rank(s[n]).Some? then p[..|p| - 1] else p);
    if i < n {
      FillPlaces(s[..n], rank, if rank(s[n]).Some? then p[..|p| - 1] else p, i);
      assert s[..n][..i] == s[..i];
    }
  }

  lemma {:induction false} FillLength<T(!new)>(s: seq<T>, rank: T -> Option<Version>, p: seq<T>)
    requires |p| == |Filter(s, Ranked(rank))|
    ensures |Fill(s, rank, p)| == |s|
    decreases |s|
  {
    if s != [] {
      FillLength(s[..|s| - 1], rank, if rank(s[|s| - 1]).Some? then p[..|p| - 1] else p);
    }
  }

  lemma {:induction false} FillConserves<T(!new)>(s: seq<T>, rank: T -> Option<Version>, p: seq<T>, x: T)
    requires |p| == |Filter(s, Ranked(rank))|
    ensures multiset(Fill(s, rank, p))[x] + multiset(Filter(s, Ranked(rank)))[x] == multiset(s)[x] + multiset(p)[x]
    decreases |s|
  {
    if s != [] {
      var n := |s| - 1;
      CountLast(s, x);
      FillLength(s, rank, p);
      CountLast(Fill(s, rank, p), x);
      if rank(s[n]).Some? {
        FillConserves(s[..n], rank, p[..|p| - 1], x);
        CountLast(p, x);
        CountLast(Filter(s, Ranked(rank)), x);
      } else {
        FillConserves(s[..n], rank, p, x);
      }
    }
  }

  lemma FillIsArranged<T(!new)>(s: seq<T>, rank: T -> Option<Version>, p: seq<T>, good: iset<T>)
    requires multiset(p) == multiset(Filter(s, Ranked(rank))) && |p| == |Filter(s, Ranked(rank))|
    requires AllRanked(p, rank) && GoodLast(p, rank, good)
    ensures Arranged(s, Fill(s, rank, p), rank)
  {
    var t := Fill(s, rank, p);
    FillLength(s, rank, p);
    forall x ensures multiset(t)[x] == multiset(s)[x] {
      FillConserves(s, rank, p, x);
    }
    forall i | 0 <= i < |s| ensures (rank(s[i]).None? ==> t[i] == s[i]) && (rank(s[i]).Some? ==> rank(t[i]).Some?) {
      FillPlaces(s, rank, p, i);
    }
    forall i, j | 0 <= i < j < |s| ensures InOrder(t[i], t[j], rank) {
      FillPlaces(s, rank, p, i);
      FillPlaces(s, rank, p, j);
      if rank(s[i]).Some? && rank(s[j]).Some? {
        FilterPrefix(s[..j], Ranked(rank), i);
        assert s[..j][..i] == s[..i];
        var c, d := |Filter(s[..i], Ranked(rank))|, |Filter(s[..j], Ranked(rank))|;
        assert Ahead(p[c], p[d], rank, good);
        AheadOrder(p[c], p[d], p[d], rank, good);
      }
    }
  }

  /** Before a good element of a good-last order all blockers have been placed. */
  lemma BlockersComeFirst<T(!new)>(s: seq<T>, rank: T -> Option<Version>, p: seq<T>, good: iset<T>, c: nat)
    requires multiset(p) == multiset(Filter(s, Ranked(rank)))
    requires AllRanked(p, rank) && GoodLast(p, rank, good) && c < |p| && p[c] in good
    ensures |Filter(s, Blockers(s, rank, good))| <= c
  {
    var blockers := Blockers(s, rank, good);
    assert p[c] in multiset(p) && p[c] in Filter(s, Ranked(rank));
    FilterMembers(s, Ranked(rank), p[c]);
    forall d | c <= d < |p| ensures p[d] !in blockers {
      PrecedenceIsTotalOrder(rank(p[c]).value, rank(p[d]).value, rank(p[c]).value);
      assert d > c ==> Ahead(p[c], p[d], rank, good);
    }
    NothingAfter(p, blockers, c);
    forall x ensures multiset(Filter(p, blockers))[x] == multiset(Filter(s, blockers))[x] {
      FilterCount(p, blockers, x);
      FilterCount(s, blockers, x);
      FilterCount(s, Ranked(rank), x);
    }
    assert multiset(Filter(p, blockers)) == multiset(Filter(s, blockers));
    assert |multiset(Filter(p, blockers))| == |Filter(p, blockers)| && |multiset(Filter(s, blockers))| == |Filter(s, blockers)|;
  }

  /** A good unranked element with too few ranked places before it is found first in some arrangement. */
  lemma UnshieldedIsFound<T(!new)>(before: seq<T>, rank: T -> Option<Version>, good: iset<T>, p: nat) returns (after: seq<T>, k: nat)
    requires p < |before| && before[p] in good && rank(before[p]).None?
    requires |Filter(before[..p], Ranked(rank))| <= |Filter(before, Blockers(before, rank, good))|
    ensures Arranged(before, after, rank) && IsFirst(after, good, k) && rank(after[k]).None?
  {
    var ranked := Filter(before, Ranked(rank));
    forall x | x in ranked ensures rank(x).Some? {
      FilterMembers(before, Ranked(rank), x);
    }
    var order := SortGoodLast(ranked, rank, good);
    assert |order| == |multiset(order)| == |multiset(ranked)| == |ranked|;
    after := Fill(before, rank, order);
    FillIsArranged(before, rank, order, good);
    FillPlaces(before, rank, order, p);
    k := FirstExists(after, good, p);
    if rank(after[k]).Some? {
      FillPlaces(before, rank, order, k);
      assert k < p && rank(before[k]).Some?;
      FilterPrefix(before[..p], Ranked(rank), k);
      assert before[..p][..k] == before[..k];
      BlockersComeFirst(before, rank, order, good, |Filter(before[..k], Ranked(rank))|);
      assert false;
    }
  }

  // ---------------------------------------------------------------- the plugin search

  /** The answer names a serving version that parses and that no serving version is above. */
  ghost predicate IsMaximum(parse: Parser, plugin: Plugin, servers: seq<Server>, released: seq<PluginVersion>, r: Result<string, SolverError>) {
    && r.Ok? && Parses(parse, r.value)
    && (exists v :: v in released && ServesAll(v, servers, plugin) && v.version == r.value)
    && forall v | v in released && ServesAll(v, servers, plugin) && Parses(parse, v.version) :: NotAbove(parse, v.version, r.value)
  }

  /**
    Exactly when the unpinned search for a plugin version keeps the promise of the maximum, for this
    plugin, these servers and this list, and whatever order versions of equal precedence end up in.
   */
  lemma PluginSearchIsMaximalIff(parse: Parser, plugin: Plugin, servers: seq<Server>, all: seq<PluginVersion>, now: int, released: seq<PluginVersion>)
    requires all != [] && servers != [] && PinnedPluginVersion(plugin) == ""
    requires IsDelayFilter(all, DateOf(), Delay(plugin), now, released)
    requires HasRanked(released, RankOf(parse), Serving(servers, plugin))
    ensures (forall r | IsPluginAnswer(parse, plugin, servers, all, now, r) :: IsMaximum(parse, plugin, servers, released, r)) <==>
            Shielded(released, RankOf(parse), Serving(servers, plugin))
  {
    var good, rank := Serving(servers, plugin), RankOf(parse);
    if Shielded(released, rank, good) {
      forall r | IsPluginAnswer(parse, plugin, servers, all, now, r) ensures IsMaximum(parse, plugin, servers, released, r) {
        ShieldedAnswer(parse, plugin, servers, all, now, released, r);
      }
    } else {
      var p :| 0 <= p < |released| && released[p] in good && rank(released[p]).None? &&
        !(|Filter(released[..p], Ranked(rank))| > |Filter(released, Blockers(released, rank, good))|);
      var after, k := UnshieldedIsFound(released, rank, good, p);
      var r: Result<string, SolverError> := Ok(after[k].version);
      assert IsSearchResult(after, servers, plugin, r);
      assert IsPluginAnswer(parse, plugin, servers, all, now, r);
      assert !Parses(parse, r.value);
    }
  }

  lemma ShieldedAnswer(parse: Parser, plugin: Plugin, servers: seq<Server>, all: seq<PluginVersion>, now: int,
                       released: seq<PluginVersion>, r: Result<string, SolverError>)
    requires all != [] && servers != [] && PinnedPluginVersion(plugin) == ""
    requires IsDelayFilter(all, DateOf(), Delay(plugin), now, released)
    requires HasRanked(released, RankOf(parse), Serving(servers, plugin)) && Shielded(released, RankOf(parse), Serving(servers, plugin))
    requires IsPluginAnswer(parse, plugin, servers, all, now, r)
    ensures IsMaximum(parse, plugin, servers, released, r)
  {
    var good, rank := Serving(servers, plugin), RankOf(parse);
    PluginAnswerIsBest(parse, plugin, servers, all, now, r);
    forall v ensures v in released <==> v in all && ReleasedInTime(v, plugin, now) {
      DelayFilterMembers(all, plugin, now, released, v);
    }
    var released': seq<PluginVersion>, sorted: seq<PluginVersion> :|
      && IsDelayFilter(all, DateOf(), Delay(plugin), now, released')
      && Arranged(released', sorted, rank)
      && (if released' == [] then r == Err(AllDelayed) else IsSearchResult(sorted, servers, plugin, r));
    assert released' == released;
    var x :| x in released && x in good && rank(x).Some?;
    ArrangedMembers(released, sorted, rank, x);
    ShieldedIsMaximal(released, sorted, rank, good);
  }

  // ---------------------------------------------------------------- the Paper search

  /** The same for the Paper search under auto and latest. */
  lemma PaperSearchIsMaximalIff(parse: Parser, server: Server, plugins: seq<Plugin>, papers: seq<string>)
    requires Searches(server) && HasRanked(papers, parse, Suiting(plugins))
    ensures (forall r | IsPaperAnswer(parse, server, plugins, papers, r) :: r.Ok? && Parses(parse, r.value)) <==>
            Shielded(papers, parse, Suiting(plugins))
  {
    var good := Suiting(plugins);
    if Shielded(papers, parse, good) {
      forall r | IsPaperAnswer(parse, server, plugins, papers, r) ensures r.Ok? && Parses(parse, r.value) {
        ShieldedPaperAnswer(parse, server, plugins, papers, r);
      }
    } else {
      var p :| 0 <= p < |papers| && papers[p] in good && parse(papers[p]).None? &&
        !(|Filter(papers[..p], Ranked(parse))| > |Filter(papers, Blockers(papers, parse, good))|);
      var after, k := UnshieldedIsFound(papers, parse, good, p);
      var r: Result<string, SolverError> := Ok(after[k]);
      assert IsPaperAnswer(parse, server, plugins, papers, r);
    }
  }

  lemma ShieldedPaperAnswer(parse: Parser, server: Server, plugins: seq<Plugin>, papers: seq<string>, r: Result<string, SolverError>)
    requires Searches(server) && HasRanked(papers, parse, Suiting(plugins)) && Shielded(papers, parse, Suiting(plugins))
    requires IsPaperAnswer(parse, server, plugins, papers, r)
    ensures r.Ok? && Parses(parse, r.value)
  {
    var good := Suiting(plugins);
    PaperAnswerIsBest(parse, server, plugins, papers, r);
    var x :| x in papers && x in good && parse(x).Some?;
    assert SuitsAll(plugins, x);
    var sorted :| Arranged(papers, sorted, parse) && exists k: nat :: IsFirst(sorted, good, k) && sorted[k] == r.value;
    var k: nat :| IsFirst(sorted, good, k) && sorted[k] == r.value;
    ArrangedMembers(papers, sorted, parse, x);
    ShieldedIsMaximal(papers, sorted, parse, good);
    assert SearchIsMaximal(sorted, parse, good);
  }
}
