/**
  How the server controller uses the solver: it looks for a Paper version, checks the plugins
  against it once more, and then asks the solver for a plugin version at that Paper version
  (internal/controller/papermcserver_controller.go).
 */
module CandidateUpdate {
  import opened Wrappers
  import opened Versions
  import opened Solver

  /** The cached version list as the solver receives it: status keeps no Paper versions. */
  function Cached(plugin: Plugin): seq<PluginVersion> {
    seq(|plugin.available|, i requires 0 <= i < |plugin.available| => plugin.available[i].(paperVersions := []))
  }

  predicate IsPluginCompatibleWithPaper(plugin: Plugin, candidate: string) {
    if OverrideEnabled(plugin) then
      var listed := plugin.compat.value.minecraftVersions;
      listed == [] || ContainsVersion(listed, candidate)
    else
      exists v | v in plugin.available :: ContainsVersion(v.minecraftVersions, candidate)
  }

  predicate Blocks(plugin: Plugin, candidate: string) {
    !(plugin.available == [] && !OverrideEnabled(plugin)) && !IsPluginCompatibleWithPaper(plugin, candidate)
  }

  /** The first plugin that blocks the candidate. */
  function CheckPluginCompatibility(candidate: string, plugins: seq<Plugin>): Option<string> {
    if plugins == [] then None
    else if Blocks(plugins[0], candidate) then Some(plugins[0].name)
    else CheckPluginCompatibility(candidate, plugins[1..])
  }

  lemma {:induction false} CheckAcceptsWhenNoneBlocks(candidate: string, plugins: seq<Plugin>)
    ensures CheckPluginCompatibility(candidate, plugins).None? <==> forall p | p in plugins :: !Blocks(p, candidate)
  {
    if plugins != [] {
      CheckAcceptsWhenNoneBlocks(candidate, plugins[1..]);
      assert plugins == [plugins[0]] + plugins[1..];
    }
  }

  /** The override, when it is on and lists versions, lists this one. */
  predicate OverrideAllows(plugin: Plugin, candidate: string) {
    OverrideEnabled(plugin) && plugin.compat.value.minecraftVersions != [] ==>
      ContainsVersion(plugin.compat.value.minecraftVersions, candidate)
  }

  /**
    The two compatibility checks on a Paper version that the solver chose: the controller's check
    agrees exactly when every enabled, non-empty override lists that version.
   */
  lemma ControllerAcceptsSolverChoiceIff(parse: Parser, server: Server, plugins: seq<Plugin>, papers: seq<string>, chosen: string)
    requires IsPaperAnswer(parse, server, plugins, papers, Ok(chosen)) && Searches(server)
    ensures CheckPluginCompatibility(chosen, plugins).None? <==> forall p | p in plugins :: OverrideAllows(p, chosen)
  {
    PaperAnswerIsBest(parse, server, plugins, papers, Ok(chosen));
    CheckAcceptsWhenNoneBlocks(chosen, plugins);
    forall p | p in plugins ensures Blocks(p, chosen) <==> !OverrideAllows(p, chosen) {
      assert HasVersionFor(p, chosen);
    }
  }

  /** A concrete disagreement: the plugin lists 1.21.4, its override only 1.20.1, and the solver's 1.21.4 is blocked. */
  lemma OverrideBlocksSolverChoice(parse: Parser)
    ensures var server := Server("auto", "", "");
            var plugin := Plugin("p", "latest", "", None, Some(CompatibilityOverride(true, ["1.20.1"])), [PluginVersion("2.0.0", 0, ["1.21.4"], [])]);
            && IsPaperAnswer(parse, server, [plugin], ["1.21.4"], Ok("1.21.4"))
            && CheckPluginCompatibility("1.21.4", [plugin]) == Some("p")
  {
    var server := Server("auto", "", "");
    var plugin := Plugin("p", "latest", "", None, Some(CompatibilityOverride(true, ["1.20.1"])), [PluginVersion("2.0.0", 0, ["1.21.4"], [])]);
    var papers := ["1.21.4"];
    assert "1.21.4" in plugin.available[0].minecraftVersions && ContainsVersion(plugin.available[0].minecraftVersions, "1.21.4");
    assert plugin.available[0] in plugin.available && HasVersionFor(plugin, "1.21.4");
    assert SuitsAll([plugin], papers[0]);
    assert Arranged(papers, papers, parse) && IsFirst(papers, Suiting([plugin]), 0);
    assert Searches(server) && IsPaperAnswer(parse, server, [plugin], papers, Ok("1.21.4"));
    assert !ContainsVersion(["1.20.1"], "1.21.4");
    assert !OverrideAllows(plugin, "1.21.4") && plugin in [plugin];
    ControllerAcceptsSolverChoiceIff(parse, server, [plugin], papers, "1.21.4");
  }

  /** The temporary server that stands for the candidate Paper version. */
  function CandidateServer(candidate: string): Server {
    Server("", "", candidate)
  }

  /** The plugins for which the two searches are bound to fit together. */
  predicate PlainlySearched(plugin: Plugin) {
    plugin.available != [] && PinnedPluginVersion(plugin) == "" && Delay(plugin) == 0 && !OverrideEnabled(plugin)
  }

  /** A cached version with this name lists the Paper version or has no metadata at all. */
  ghost predicate NamesFittingVersion(plugin: Plugin, name: string, paper: string) {
    exists v :: v in plugin.available && v.version == name && Fits(v, paper)
  }

  /**
    The two searches fit together: at a Paper version the Paper search chose, the plugin search
    succeeds for every plainly searched plugin and names a version that fits that Paper version.
   */
  lemma PaperChoiceServesPlugin(parse: Parser, server: Server, plugins: seq<Plugin>, papers: seq<string>, chosen: string,
                                p: Plugin, now: int, r: Result<string, SolverError>)
    requires IsPaperAnswer(parse, server, plugins, papers, Ok(chosen)) && Searches(server)
    requires p in plugins && PlainlySearched(p)
    requires IsPluginAnswer(parse, p, [CandidateServer(chosen)], Cached(p), now, r)
    ensures r.Ok? && NamesFittingVersion(p, r.value, chosen)
  {
    assert HasVersionFor(p, chosen) by {
      PaperAnswerIsBest(parse, server, plugins, papers, Ok(chosen));
    }
    var v :| v in p.available && ContainsVersion(v.minecraftVersions, chosen);
    var i :| 0 <= i < |p.available| && p.available[i] == v;
    AnswerFits(parse, p, chosen, now, r, i);
  }

  lemma AnswerFits(parse: Parser, p: Plugin, chosen: string, now: int, r: Result<string, SolverError>, i: nat)
    requires PlainlySearched(p) && i < |p.available| && Fits(p.available[i], chosen)
    requires IsPluginAnswer(parse, p, [CandidateServer(chosen)], Cached(p), now, r)
    ensures r.Ok? && NamesFittingVersion(p, r.value, chosen)
  {
    var all, servers := Cached(p), [CandidateServer(chosen)];
    CachedServesWhenFitting(p, chosen, i);
    assert all[i] in all && ReleasedInTime(all[i], p, now);
    PluginAnswerIsBest(parse, p, servers, all, now, r);
    var w :| w in all && ServesAll(w, servers, p) && w.version == r.value;
    var j :| 0 <= j < |all| && all[j] == w;
    CachedServesWhenFitting(p, chosen, j);
    assert p.available[j] in p.available;
  }

  predicate Fits(v: PluginVersion, paper: string) {
    v.minecraftVersions == [] || ContainsVersion(v.minecraftVersions, paper)
  }

  lemma CachedServesWhenFitting(p: Plugin, chosen: string, i: nat)
    requires i < |p.available| && !OverrideEnabled(p)
    ensures ServesAll(Cached(p)[i], [CandidateServer(chosen)], p) <==> Fits(p.available[i], chosen)
  {
    var v, server := Cached(p)[i], CandidateServer(chosen);
    assert IsPluginCompatibleWithServer(v, server, p) <==> Fits(p.available[i], chosen);
    assert server in [server];
    assert forall s | s in [server] :: s == server;
  }

  datatype Pair = Pair(plugin: string, version: string)

  function WithVersions(plugins: seq<Plugin>): seq<Plugin> {
    if plugins == [] then []
    else
      var last := plugins[|plugins| - 1];
      WithVersions(plugins[..|plugins| - 1]) + (if last.available == [] then [] else [last])
  }

  lemma {:induction false} WithVersionsMembers(plugins: seq<Plugin>)
    ensures forall p | p in WithVersions(plugins) :: p in plugins && p.available != []
  {
    if plugins != [] {
      WithVersionsMembers(plugins[..|plugins| - 1]);
      assert plugins == plugins[..|plugins| - 1] + [plugins[|plugins| - 1]];
    }
  }

  /** The pair holds a solver answer at the candidate, or the first cached version if the solver failed. */
  ghost predicate IsPairFor(parse: Parser, candidate: string, p: Plugin, now: int, pair: Pair)
    requires p.available != []
  {
    exists r :: IsPluginAnswer(parse, p, [CandidateServer(candidate)], Cached(p), now, r) &&
                pair == Pair(p.name, if r.Ok? then r.value else p.available[0].version)
  }

  ghost predicate ArePairs(parse: Parser, candidate: string, asked: seq<Plugin>, now: int, pairs: seq<Pair>) {
    && |pairs| == |asked|
    && forall i | 0 <= i < |asked| :: asked[i].available != [] && IsPairFor(parse, candidate, asked[i], now, pairs[i])
  }

  method BuildPluginVersionPairs(parse: Parser, candidate: string, plugins: seq<Plugin>, now: int) returns (pairs: seq<Pair>)
    ensures ArePairs(parse, candidate, WithVersions(plugins), now, pairs)
  {
    pairs := [];
    for i := 0 to |plugins|
      invariant ArePairs(parse, candidate, WithVersions(plugins[..i]), now, pairs)
    {
      var p := plugins[i];
      assert plugins[..i + 1][..i] == plugins[..i];
      if p.available == [] {
        continue;
      }
      var r := FindBestPluginVersion(parse, p, [CandidateServer(candidate)], Cached(p), now);
      pairs := pairs + [Pair(p.name, if r.Ok? then r.value else p.available[0].version)];
      assert IsPairFor(parse, candidate, p, now, pairs[|pairs| - 1]);
    }
    assert plugins[..|plugins|] == plugins;
  }

  datatype Update = Update(version: string, build: int, pairs: seq<Pair>)

  datatype UpdateError = FetchFailed | SolverFailed(error: SolverError) | BuildUnknown

  /**
    The search for a newer Paper version.  `papers` and `buildOf` are the answers of the Paper API.
    An update that is found names a version other than the current one that suits every plugin,
    and for every plainly searched plugin the pair is a real solver choice, never the fallback.
   */
  method FindVersionUpdate(parse: Parser, server: Server, plugins: seq<Plugin>, papers: Option<seq<string>>,
                           buildOf: string -> Option<int>, now: int)
    returns (r: Result<Option<Update>, UpdateError>)
    ensures papers.None? ==> r == Err(FetchFailed)
    ensures r.Ok? && r.value.Some? ==>
              var u := r.value.value;
              && papers.Some? && IsPaperAnswer(parse, server, plugins, papers.value, Ok(u.version))
              && u.version !in {"", server.currentVersion} && buildOf(u.version) == Some(u.build)
              && ArePairs(parse, u.version, WithVersions(plugins), now, u.pairs)
              && (Searches(server) ==>
                    forall i | 0 <= i < |u.pairs| && PlainlySearched(WithVersions(plugins)[i]) ::
                      NamesFittingVersion(WithVersions(plugins)[i], u.pairs[i].version, u.version))
  {
    if papers.None? {
      return Err(FetchFailed);
    }
    var best := FindBestPaperVersion(parse, server, plugins, papers.value);
    if best.Err? {
      return Err(SolverFailed(best.error));
    }
    if best.value == server.currentVersion || best.value == "" {
      return Ok(None);
    }
    var build := buildOf(best.value);
    if build.None? {
      return Err(BuildUnknown);
    }
    var pairs := BuildPluginVersionPairs(parse, best.value, plugins, now);
    if Searches(server) {
      WithVersionsMembers(plugins);
      forall i | 0 <= i < |pairs| && PlainlySearched(WithVersions(plugins)[i])
        ensures NamesFittingVersion(WithVersions(plugins)[i], pairs[i].version, best.value)
      {
        var p := WithVersions(plugins)[i];
        var a :| IsPluginAnswer(parse, p, [CandidateServer(best.value)], Cached(p), now, a) &&
                 pairs[i] == Pair(p.name, if a.Ok? then a.value else p.available[0].version);
        PaperChoiceServesPlugin(parse, server, plugins, papers.value, best.value, p, now, a);
      }
    }
    return Ok(Some(Update(best.value, build.value, pairs)));
  }
}
