/**
  The constraint solver (pkg/solver/simple_solver.go): an in-place exchange sort that skips versions
  which do not parse, and a linear search through its result.
 */
module Solver {
  import opened Wrappers
  import opened Semver
  import opened Versions

  datatype PluginVersion = PluginVersion(
    version: string, releaseDate: int, minecraftVersions: seq<string>, paperVersions: seq<string>)

  datatype CompatibilityOverride = CompatibilityOverride(enabled: bool, minecraftVersions: seq<string>)

  /** A Plugin object; `available` is the version list cached in its status. */
  datatype Plugin = Plugin(
    name: string, strategy: string, version: string, updateDelay: Option<int>,
    compat: Option<CompatibilityOverride>, available: seq<PluginVersion>)

  datatype Server = Server(strategy: string, version: string, currentVersion: string)

  datatype SolverError =
    | NoVersions | NoServers | AllDelayed | NoneCompatible | VersionNotSet | UnknownStrategy

  // ---------------------------------------------------------------- sorting

  /**
    What the exchange sort makes of `before`: the same elements, the unranked ones where they
    were, the ranked ones on the remaining places in descending order.
   */
  ghost predicate Arranged<T(!new)>(before: seq<T>, after: seq<T>, rank: T -> Option<Version>) {
    && Kept(before, after, rank)
    && forall i, j | 0 <= i < j < |after| :: InOrder(after[i], after[j], rank)
  }

  predicate InOrder<T>(x: T, y: T, rank: T -> Option<Version>) {
    rank(x).Some? && rank(y).Some? ==> AtMost(rank(y).value, rank(x).value)
  }

  lemma InOrderProperties<T(!new)>(x: T, y: T, z: T, rank: T -> Option<Version>)
    requires rank(y).Some?
    ensures InOrder(x, y, rank) && InOrder(y, z, rank) ==> InOrder(x, z, rank)
    ensures InOrder(x, y, rank) || InOrder(y, x, rank)
  {
    if rank(x).Some? {
      PrecedenceIsTotalOrder(rank(y).value, rank(x).value, rank(x).value);
      if rank(z).Some? {
        PrecedenceIsTotalOrder(rank(z).value, rank(y).value, rank(x).value);
      }
    }
  }

  /** What every state of the sort shares with its input. */
  ghost predicate Kept<T(!new)>(before: seq<T>, s: seq<T>, rank: T -> Option<Version>) {
    && |before| == |s|
    && multiset(before) == multiset(s)
    && (forall i | 0 <= i < |before| && rank(before[i]).None? :: s[i] == before[i])
    && (forall i | 0 <= i < |before| && rank(before[i]).Some? :: rank(s[i]).Some?)
  }

  /** The first i places hold their final elements. */
  ghost predicate Settled<T(!new)>(s: seq<T>, i: nat, rank: T -> Option<Version>) {
    forall k, l | 0 <= k < i && k < l < |s| :: InOrder(s[k], s[l], rank)
  }

  ghost predicate Leads<T(!new)>(s: seq<T>, i: nat, j: nat, rank: T -> Option<Version>)
    requires i < j <= |s|
  {
    forall l | i < l < j :: InOrder(s[i], s[l], rank)
  }

  lemma SwapStep<T(!new)>(before: seq<T>, s: seq<T>, t: seq<T>, i: nat, j: nat, rank: T -> Option<Version>)
    requires i < j < |s| && t == s[i := s[j]][j := s[i]]
    requires Kept(before, s, rank) && Settled(s, i, rank) && Leads(s, i, j, rank)
    requires rank(s[i]).Some? && rank(s[j]).Some? && Precedence(rank(s[j]).value, rank(s[i]).value) > 0
    ensures Kept(before, t, rank) && Settled(t, i, rank) && Leads(t, i, j + 1, rank)
  {
    InOrderProperties(s[j], s[i], s[j], rank);
    forall l | i < l < j ensures InOrder(t[i], t[l], rank) {
      InOrderProperties(s[j], s[i], s[l], rank);
    }
    PrecedenceIsTotalOrder(rank(s[i]).value, rank(s[j]).value, rank(s[j]).value);
  }

  lemma NoSwapStep<T(!new)>(s: seq<T>, i: nat, j: nat, rank: T -> Option<Version>)
    requires i < j < |s| && Leads(s, i, j, rank)
    requires !(rank(s[i]).Some? && rank(s[j]).Some? && Precedence(rank(s[j]).value, rank(s[i]).value) > 0)
    ensures Leads(s, i, j + 1, rank)
  {
  }

  method ExchangeSort<T(!new)>(a: array<T>, rank: T -> Option<Version>)
    modifies a
    ensures Arranged(old(a[..]), a[..], rank)
  {
    ghost var before := a[..];
    for i := 0 to a.Length
      invariant Kept(before, a[..], rank) && Settled(a[..], i, rank)
    {
      for j := i + 1 to a.Length
        invariant Kept(before, a[..], rank) && Settled(a[..], i, rank) && Leads(a[..], i, j, rank)
      {
        ghost var s := a[..];
        if rank(a[i]).Some? && rank(a[j]).Some? && Precedence(rank(a[j]).value, rank(a[i]).value) > 0 {
          a[i], a[j] := a[j], a[i];
          assert a[..] == s[i := s[j]][j := s[i]];
          SwapStep(before, s, a[..], i, j, rank);
        } else {
          NoSwapStep(s, i, j, rank);
        }
      }
    }
  }

  function RankOf(parse: Parser): (PluginVersion -> Option<Version>) {
    (v: PluginVersion) => parse(v.version)
  }

  function DateOf(): (PluginVersion -> int) {
    (v: PluginVersion) => v.releaseDate
  }

  method SortVersionsDesc(parse: Parser, versions: seq<PluginVersion>) returns (sorted: seq<PluginVersion>)
    ensures Arranged(versions, sorted, RankOf(parse))
  {
    var a := new PluginVersion[|versions|](i requires 0 <= i < |versions| => versions[i]);
    assert a[..] == versions;
    ExchangeSort(a, RankOf(parse));
    sorted := a[..];
  }

  method SortPaperVersionsDesc(parse: Parser, versions: seq<string>) returns (sorted: seq<string>)
    ensures Arranged(versions, sorted, parse)
  {
    var a := new string[|versions|](i requires 0 <= i < |versions| => versions[i]);
    assert a[..] == versions;
    ExchangeSort(a, parse);
    sorted := a[..];
  }

  // ---------------------------------------------------------------- the search over an arranged list

  /** Index k is the first good element of the list. */
  ghost predicate IsFirst<T(!new)>(s: seq<T>, good: iset<T>, k: nat) {
    k < |s| && s[k] in good && forall j | 0 <= j < k :: s[j] !in good
  }

  /** If some good element is ranked, the first good one is ranked and no good one outranks it. */
  ghost predicate SearchIsMaximal<T(!new)>(s: seq<T>, rank: T -> Option<Version>, good: iset<T>) {
    (exists x :: x in s && x in good && rank(x).Some?) ==>
      exists k: nat :: IsFirst(s, good, k) && rank(s[k]).Some? &&
                  forall y | y in s && y in good && rank(y).Some? :: InOrder(s[k], y, rank)
  }

  lemma {:induction false} FirstExists<T(!new)>(s: seq<T>, good: iset<T>, k: nat) returns (first: nat)
    requires k < |s| && s[k] in good
    ensures first <= k && IsFirst(s, good, first)
  {
    if forall j | 0 <= j < k :: s[j] !in good {
      first := k;
    } else {
      var j :| 0 <= j < k && s[j] in good;
      first := FirstExists(s, good, j);
    }
  }

  /** No element without a rank comes before one with a rank. */
  ghost predicate RankedFirst<T(!new)>(s: seq<T>, rank: T -> Option<Version>) {
    forall i, j | 0 <= i < j < |s| && rank(s[j]).Some? :: rank(s[i]).Some?
  }

  ghost predicate Distinct<T(!new)>(s: seq<T>) {
    forall x :: multiset(s)[x] <= 1
  }

  lemma DistinctPlaces<T(!new)>(s: seq<T>, i: nat, j: nat)
    requires Distinct(s) && i < j < |s|
    ensures s[i] != s[j]
  {
    assert s == s[..j] + s[j..];
    assert s[..j][i] == s[i] && s[j..][0] == s[j];
    assert multiset(s[..j])[s[i]] >= 1 && multiset(s[j..])[s[j]] >= 1;
    assert multiset(s)[s[i]] <= 1;
    assert multiset(s) == multiset(s[..j]) + multiset(s[j..]);
  }

  lemma ArrangedMembers<T(!new)>(before: seq<T>, after: seq<T>, rank: T -> Option<Version>, x: T)
    requires Arranged(before, after, rank)
    ensures x in before <==> x in after
  {
    assert x in before <==> x in multiset(before);
    assert x in after <==> x in multiset(after);
  }

  lemma FirstOfArrangedIsMaximal<T(!new)>(before: seq<T>, after: seq<T>, rank: T -> Option<Version>, good: iset<T>, k: nat)
    requires Arranged(before, after, rank) && IsFirst(after, good, k) && rank(after[k]).Some?
    ensures forall y | y in before && y in good && rank(y).Some? :: InOrder(after[k], y, rank)
  {
    forall y | y in before && y in good && rank(y).Some? ensures InOrder(after[k], y, rank) {
      assert y in multiset(before);
      assert y in after;
      var j :| 0 <= j < |after| && after[j] == y;
      if j == k {
        InOrderProperties(y, y, y, rank);
      }
    }
  }

  lemma RankedFirstIsMaximal<T(!new)>(before: seq<T>, after: seq<T>, rank: T -> Option<Version>, good: iset<T>)
    requires Arranged(before, after, rank) && RankedFirst(before, rank)
    ensures SearchIsMaximal(after, rank, good)
  {
    if x :| x in after && x in good && rank(x).Some? {
      var j :| 0 <= j < |after| && after[j] == x;
      assert rank(before[j]).Some?;
      var k := FirstExists(after, good, j);
      assert rank(before[k]).Some?;
      FirstOfArrangedIsMaximal(before, after, rank, good, k);
      forall y | y in after && y in good && rank(y).Some? ensures InOrder(after[k], y, rank) {
        assert y in multiset(after);
      }
    }
  }

  /** An unparseable version that stands before a parseable one is found first when just these two are good. */
  lemma UnrankedBeforeRanked<T(!new)>(before: seq<T>, after: seq<T>, rank: T -> Option<Version>, i: nat, j: nat)
    requires Arranged(before, after, rank) && Distinct(before)
    requires i < j < |before| && rank(before[j]).Some? && rank(before[i]).None?
    ensures !SearchIsMaximal(after, rank, iset{after[i], after[j]})
  {
    var good := iset{after[i], after[j]};
    forall k | 0 <= k < i ensures after[k] !in good {
      assert Distinct(after);
      DistinctPlaces(after, k, i);
      DistinctPlaces(after, k, j);
    }
    assert IsFirst(after, good, i);
    assert after[j] in after;
    forall k: nat | IsFirst(after, good, k) ensures k == i {
    }
  }

  /**
    The doc comment promises the maximum compatible version.  With versions that do not parse the
    search keeps that promise for every possible set of compatible versions exactly when no
    unparseable version stands before a parseable one in the list it is given.
   */
  lemma SearchIsMaximalIff<T(!new)>(before: seq<T>, after: seq<T>, rank: T -> Option<Version>)
    requires Arranged(before, after, rank) && Distinct(before)
    ensures (forall good: iset<T> :: SearchIsMaximal(after, rank, good)) <==> RankedFirst(before, rank)
  {
    hide SearchIsMaximal;
    if RankedFirst(before, rank) {
      forall good: iset<T> ensures SearchIsMaximal(after, rank, good) {
        RankedFirstIsMaximal(before, after, rank, good);
      }
    } else {
      var i, j :| 0 <= i < j < |before| && rank(before[j]).Some? && rank(before[i]).None?;
      UnrankedBeforeRanked(before, after, rank, i, j);
    }
  }

  // ---------------------------------------------------------------- plugin versions

  function PinnedPluginVersion(plugin: Plugin): string {
    if plugin.strategy in {"pin", "build-pin", "pinned"} then plugin.version else ""
  }

  predicate OverrideEnabled(plugin: Plugin) {
    plugin.compat.Some? && plugin.compat.value.enabled
  }

  function Delay(plugin: Plugin): int {
    if plugin.updateDelay.Some? then plugin.updateDelay.value else 0
  }

  predicate IsPluginCompatibleWithServer(v: PluginVersion, server: Server, plugin: Plugin) {
    var paper := if server.currentVersion == "" then server.version else server.currentVersion;
    if OverrideEnabled(plugin) then
      var listed := plugin.compat.value.minecraftVersions;
      listed == [] || ContainsVersion(listed, paper)
    else
      || (v.minecraftVersions == [] && v.paperVersions == [])
      || ContainsVersion(v.minecraftVersions, paper)
      || ContainsVersion(v.paperVersions, paper)
  }

  predicate ServesAll(v: PluginVersion, servers: seq<Server>, plugin: Plugin) {
    forall s | s in servers :: IsPluginCompatibleWithServer(v, s, plugin)
  }

  ghost function Serving(servers: seq<Server>, plugin: Plugin): iset<PluginVersion> {
    iset v: PluginVersion | ServesAll(v, servers, plugin)
  }

  predicate ReleasedInTime(v: PluginVersion, plugin: Plugin, now: int) {
    Delay(plugin) == 0 || v.releaseDate <= now - Delay(plugin)
  }

  /** The answer the solver may give: the first serving version of an arrangement of the released ones. */
  ghost predicate IsPluginAnswer(
    parse: Parser, plugin: Plugin, servers: seq<Server>, all: seq<PluginVersion>, now: int, r: Result<string, SolverError>)
  {
    if all == [] then r == Err(NoVersions)
    else if servers == [] then r == Err(NoServers)
    else if PinnedPluginVersion(plugin) != "" then r == Ok(PinnedPluginVersion(plugin))
    else exists released: seq<PluginVersion>, sorted: seq<PluginVersion> ::
      && IsDelayFilter(all, DateOf(), Delay(plugin), now, released)
      && Arranged(released, sorted, RankOf(parse))
      && (if released == [] then r == Err(AllDelayed) else IsSearchResult(sorted, servers, plugin, r))
  }

  ghost predicate IsSearchResult(sorted: seq<PluginVersion>, servers: seq<Server>, plugin: Plugin, r: Result<string, SolverError>) {
    if r.Ok? then exists k: nat :: IsFirst(sorted, Serving(servers, plugin), k) && sorted[k].version == r.value
    else r == Err(NoneCompatible) && forall v | v in sorted :: !ServesAll(v, servers, plugin)
  }

  method FindCompatiblePluginVersion(sorted: seq<PluginVersion>, servers: seq<Server>, plugin: Plugin)
    returns (r: Result<string, SolverError>)
    ensures IsSearchResult(sorted, servers, plugin, r)
  {
    for k := 0 to |sorted|
      invariant forall j | 0 <= j < k :: !ServesAll(sorted[j], servers, plugin)
    {
      var compatible := true;
      for i := 0 to |servers|
        invariant compatible ==> forall j | 0 <= j < i :: IsPluginCompatibleWithServer(sorted[k], servers[j], plugin)
        invariant !compatible ==> exists s :: s in servers && !IsPluginCompatibleWithServer(sorted[k], s, plugin)
      {
        if !IsPluginCompatibleWithServer(sorted[k], servers[i], plugin) {
          compatible := false;
          break;
        }
      }
      if compatible {
        assert IsFirst(sorted, Serving(servers, plugin), k);
        return Ok(sorted[k].version);
      }
    }
    return Err(NoneCompatible);
  }

  method FindBestPluginVersion(parse: Parser, plugin: Plugin, servers: seq<Server>, all: seq<PluginVersion>, now: int)
    returns (r: Result<string, SolverError>)
    ensures IsPluginAnswer(parse, plugin, servers, all, now, r)
  {
    if all == [] {
      return Err(NoVersions);
    }
    if servers == [] {
      return Err(NoServers);
    }
    if PinnedPluginVersion(plugin) != "" {
      return Ok(PinnedPluginVersion(plugin));
    }
    var released := FilterByUpdateDelay(all, DateOf(), Delay(plugin), now);
    var sorted := SortVersionsDesc(parse, released);
    if released == [] {
      return Err(AllDelayed);
    }
    r := FindCompatiblePluginVersion(sorted, servers, plugin);
  }

  lemma DelayFilterMembers(all: seq<PluginVersion>, plugin: Plugin, now: int, released: seq<PluginVersion>, v: PluginVersion)
    requires IsDelayFilter(all, DateOf(), Delay(plugin), now, released)
    ensures v in released <==> v in all && ReleasedInTime(v, plugin, now)
  {
    ReleasedMembers(all, DateOf(), now - Delay(plugin), v);
  }

  /**
    Every answer of the unpinned search: the version it names is released and serves every server,
    a parseable answer is not below any other parseable candidate, and there is an error exactly
    when no released version serves every server.
   */
  lemma PluginAnswerIsBest(
    parse: Parser, plugin: Plugin, servers: seq<Server>, all: seq<PluginVersion>, now: int, r: Result<string, SolverError>)
    requires IsPluginAnswer(parse, plugin, servers, all, now, r)
    requires all != [] && servers != [] && PinnedPluginVersion(plugin) == ""
    ensures r.Err? <==> forall v | v in all && ReleasedInTime(v, plugin, now) :: !ServesAll(v, servers, plugin)
    ensures r.Ok? ==> exists v :: v in all && ReleasedInTime(v, plugin, now) && ServesAll(v, servers, plugin) && v.version == r.value
    ensures r.Ok? && Parses(parse, r.value) ==>
              forall v | v in all && ReleasedInTime(v, plugin, now) && ServesAll(v, servers, plugin) && Parses(parse, v.version) ::
                NotAbove(parse, v.version, r.value)
  {
    var released: seq<PluginVersion>, sorted: seq<PluginVersion> :|
      && IsDelayFilter(all, DateOf(), Delay(plugin), now, released)
      && Arranged(released, sorted, RankOf(parse))
      && (if released == [] then r == Err(AllDelayed) else IsSearchResult(sorted, servers, plugin, r));
    forall v ensures v in sorted <==> v in all && ReleasedInTime(v, plugin, now) {
      DelayFilterMembers(all, plugin, now, released, v);
      ArrangedMembers(released, sorted, RankOf(parse), v);
    }
    if released == [] {
      assert sorted == [];
    } else {
      SearchResultIsBest(parse, released, sorted, servers, plugin, r);
    }
  }

  lemma SearchResultIsBest(parse: Parser, released: seq<PluginVersion>, sorted: seq<PluginVersion>,
                           servers: seq<Server>, plugin: Plugin, r: Result<string, SolverError>)
    requires Arranged(released, sorted, RankOf(parse)) && IsSearchResult(sorted, servers, plugin, r)
    ensures r.Err? <==> forall v | v in sorted :: !ServesAll(v, servers, plugin)
    ensures r.Ok? ==> exists v :: v in sorted && ServesAll(v, servers, plugin) && v.version == r.value
    ensures r.Ok? && Parses(parse, r.value) ==>
              forall v | v in sorted && ServesAll(v, servers, plugin) && Parses(parse, v.version) ::
                NotAbove(parse, v.version, r.value)
  {
    if r.Ok? {
      var k: nat :| IsFirst(sorted, Serving(servers, plugin), k) && sorted[k].version == r.value;
      assert sorted[k] in sorted && ServesAll(sorted[k], servers, plugin);
      if Parses(parse, r.value) {
        FirstOfArrangedIsMaximal(released, sorted, RankOf(parse), Serving(servers, plugin), k);
        forall v | v in sorted && ServesAll(v, servers, plugin) && Parses(parse, v.version)
          ensures NotAbove(parse, v.version, r.value)
        {
          ArrangedMembers(released, sorted, RankOf(parse), v);
          assert InOrder(sorted[k], v, RankOf(parse));
        }
      }
    }
  }

  /** A concrete list on which the answer is not the maximum: an unparseable first entry pre-empts 2.0.0. */
  lemma UnparseableVersionPreempts(parse: Parser)
    requires Parses(parse, "2.0.0") && !Parses(parse, "build-7")
    ensures var server := Server("auto", "", "1.21.4");
            var plugin := Plugin("p", "latest", "", None, None, []);
            var all := [PluginVersion("build-7", 0, ["1.21.4"], []), PluginVersion("2.0.0", 0, ["1.21.4"], [])];
            forall r | IsPluginAnswer(parse, plugin, [server], all, 0, r) :: r == Ok("build-7")
  {
    var server := Server("auto", "", "1.21.4");
    var plugin := Plugin("p", "latest", "", None, None, []);
    var all := [PluginVersion("build-7", 0, ["1.21.4"], []), PluginVersion("2.0.0", 0, ["1.21.4"], [])];
    assert "1.21.4" in ["1.21.4"];
    assert ContainsVersion(["1.21.4"], "1.21.4");
    assert ServesAll(all[0], [server], plugin);
    forall r | IsPluginAnswer(parse, plugin, [server], all, 0, r) ensures r == Ok("build-7") {
      PluginAnswerIsBest(parse, plugin, [server], all, 0, r);
      assert all[0] in all && ReleasedInTime(all[0], plugin, 0);
    }
  }

  // ---------------------------------------------------------------- Paper versions

  ghost predicate HasVersionFor(plugin: Plugin, paper: string) {
    plugin.available == [] || exists v :: v in plugin.available && ContainsVersion(v.minecraftVersions, paper)
  }

  ghost predicate SuitsAll(plugins: seq<Plugin>, paper: string) {
    forall p | p in plugins :: HasVersionFor(p, paper)
  }

  ghost function Suiting(plugins: seq<Plugin>): iset<string> {
    iset v: string | SuitsAll(plugins, v)
  }

  function EffectiveStrategy(strategy: string): string {
    if strategy == "" then "latest" else strategy
  }

  ghost predicate IsPaperAnswer(
    parse: Parser, server: Server, plugins: seq<Plugin>, papers: seq<string>, r: Result<string, SolverError>)
  {
    if papers == [] then r == Err(NoVersions)
    else if EffectiveStrategy(server.strategy) in {"pin", "build-pin"} then
      r == if server.version == "" then Err(VersionNotSet) else Ok(server.version)
    else if EffectiveStrategy(server.strategy) in {"auto", "latest"} then
      exists sorted :: Arranged(papers, sorted, parse) &&
        if r.Ok? then exists k: nat :: IsFirst(sorted, Suiting(plugins), k) && sorted[k] == r.value
        else r == Err(NoneCompatible) && forall v | v in sorted :: !SuitsAll(plugins, v)
    else r == Err(UnknownStrategy)
  }

  method IsPaperVersionCompatibleWithAllPlugins(paper: string, plugins: seq<Plugin>) returns (compatible: bool)
    ensures compatible <==> SuitsAll(plugins, paper)
  {
    for i := 0 to |plugins|
      invariant forall j | 0 <= j < i :: HasVersionFor(plugins[j], paper)
    {
      if plugins[i].available == [] {
        continue;
      }
      var found := false;
      for j := 0 to |plugins[i].available|
        invariant !found ==> forall l | 0 <= l < j :: !ContainsVersion(plugins[i].available[l].minecraftVersions, paper)
        invariant found ==> HasVersionFor(plugins[i], paper)
      {
        if ContainsVersion(plugins[i].available[j].minecraftVersions, paper) {
          found := true;
          break;
        }
      }
      if !found {
        assert !HasVersionFor(plugins[i], paper);
        return false;
      }
    }
    return true;
  }

  method FindBestPaperVersion(parse: Parser, server: Server, plugins: seq<Plugin>, papers: seq<string>)
    returns (r: Result<string, SolverError>)
    ensures IsPaperAnswer(parse, server, plugins, papers, r)
  {
    if papers == [] {
      return Err(NoVersions);
    }
    var strategy := EffectiveStrategy(server.strategy);
    if strategy in {"pin", "build-pin"} {
      return if server.version == "" then Err(VersionNotSet) else Ok(server.version);
    }
    if strategy !in {"auto", "latest"} {
      return Err(UnknownStrategy);
    }
    var sorted := SortPaperVersionsDesc(parse, papers);
    for k := 0 to |sorted|
      invariant forall j | 0 <= j < k :: !SuitsAll(plugins, sorted[j])
    {
      var compatible := IsPaperVersionCompatibleWithAllPlugins(sorted[k], plugins);
      if compatible {
        assert IsFirst(sorted, Suiting(plugins), k);
        return Ok(sorted[k]);
      }
    }
    return Err(NoneCompatible);
  }

  predicate Searches(server: Server) {
    EffectiveStrategy(server.strategy) in {"auto", "latest"}
  }

  /** Under auto and latest: the answer suits every plugin and is the greatest such; an error means none does. */
  lemma PaperAnswerIsBest(parse: Parser, server: Server, plugins: seq<Plugin>, papers: seq<string>, r: Result<string, SolverError>)
    requires IsPaperAnswer(parse, server, plugins, papers, r) && Searches(server) && papers != []
    ensures r.Err? <==> forall v | v in papers :: !SuitsAll(plugins, v)
    ensures r.Ok? ==> r.value in papers && SuitsAll(plugins, r.value)
    ensures r.Ok? && Parses(parse, r.value) ==>
              forall v | v in papers && SuitsAll(plugins, v) && Parses(parse, v) :: NotAbove(parse, v, r.value)
  {
    var sorted :| Arranged(papers, sorted, parse) &&
      if r.Ok? then exists k: nat :: IsFirst(sorted, Suiting(plugins), k) && sorted[k] == r.value
      else r == Err(NoneCompatible) && forall v | v in sorted :: !SuitsAll(plugins, v);
    forall v ensures v in papers <==> v in sorted {
      ArrangedMembers(papers, sorted, parse, v);
    }
    hide Arranged;
    if r.Ok? {
      var k: nat :| IsFirst(sorted, Suiting(plugins), k) && sorted[k] == r.value;
      if Parses(parse, r.value) {
        FirstOfArrangedIsMaximal(papers, sorted, parse, Suiting(plugins), k);
      }
    }
  }
}
