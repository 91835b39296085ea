/**
  The entries of the config script (internal/controller/config_injector.go): the specs of a server
  and of its matched plugins are merged into one list.  The order of a loop over a Go map is left
  open, so that every order it may take is covered.
 */
module ConfigEntries {
  import opened Wrappers
  import opened ConfigScript
  import opened ConfigOrder
  import opened Text

  const CONFIG_MOUNT_BASE := "/configs"
  const DATA_MOUNT_PATH := "/data"
  const MAX_VOLUME_NAME_LENGTH := 63

  /** A file of a ConfigMap and where it goes; an absent policy means `Always`. */
  datatype ConfigFile = ConfigFile(path: string, configMap: string, key: string, overwrite: Option<Overwrite>)

  datatype Plugin = Plugin(name: string, pluginDirName: string, project: string, configs: seq<ConfigFile>)

  datatype PluginConfig = PluginConfig(pluginName: string, configs: seq<ConfigFile>)

  datatype Server = Server(pluginConfigs: seq<PluginConfig>, serverConfigs: seq<ConfigFile>)

  datatype VolumeRef = VolumeRef(volumeName: string, mountPath: string)

  type Overrides = map<string, map<string, ConfigFile>>

  function DirName(plugin: Plugin): string {
    if plugin.pluginDirName != "" then plugin.pluginDirName else plugin.project
  }

  /** The last file configured for a path, if any. */
  function LastFor(configs: seq<ConfigFile>, path: string): Option<ConfigFile> {
    if configs == [] then None
    else if configs[|configs| - 1].path == path then Some(configs[|configs| - 1])
    else LastFor(configs[..|configs| - 1], path)
  }

  /** The server's override for a plugin and path: the last one configured. */
  function OverrideFor(pluginConfigs: seq<PluginConfig>, plugin: string, path: string): Option<ConfigFile> {
    if pluginConfigs == [] then None
    else
      var last := pluginConfigs[|pluginConfigs| - 1];
      var found := if last.pluginName == plugin then LastFor(last.configs, path) else None;
      if found.Some? then found else OverrideFor(pluginConfigs[..|pluginConfigs| - 1], plugin, path)
  }

  lemma {:induction false} LastForHasPath(configs: seq<ConfigFile>, path: string)
    ensures LastFor(configs, path).Some? ==> LastFor(configs, path).value.path == path && LastFor(configs, path).value in configs
    ensures LastFor(configs, path).None? ==> forall c | c in configs :: c.path != path
  {
    if configs != [] {
      LastForHasPath(configs[..|configs| - 1], path);
      assert configs == configs[..|configs| - 1] + [configs[|configs| - 1]];
    }
  }

  lemma {:induction false} OverrideHasPath(pluginConfigs: seq<PluginConfig>, plugin: string, path: string)
    ensures var found := OverrideFor(pluginConfigs, plugin, path);
            found.Some? ==> found.value.path == path && exists pc :: pc in pluginConfigs && pc.pluginName == plugin
  {
    if pluginConfigs != [] {
      var last := pluginConfigs[|pluginConfigs| - 1];
      LastForHasPath(last.configs, path);
      OverrideHasPath(pluginConfigs[..|pluginConfigs| - 1], plugin, path);
      assert last in pluginConfigs;
      assert forall pc | pc in pluginConfigs[..|pluginConfigs| - 1] :: pc in pluginConfigs;
    }
  }

  /** `digest` is the hash suffix of names that are too long. */
  function VolumeName(configMap: string, digest: string -> string): string {
    Truncate("cm-" + configMap, MAX_VOLUME_NAME_LENGTH, digest)
  }

  function RefOf(configMap: string, digest: string -> string): VolumeRef {
    VolumeRef(VolumeName(configMap, digest), CONFIG_MOUNT_BASE + "/" + VolumeName(configMap, digest))
  }

  function EntryFor(target: string, cfg: ConfigFile, digest: string -> string): Entry {
    Entry(CONFIG_MOUNT_BASE + "/" + VolumeName(cfg.configMap, digest) + "/" + cfg.key, target, if cfg.overwrite.None? then Always else cfg.overwrite.value)
  }

  function PluginTarget(dir: string, path: string): string {
    DATA_MOUNT_PATH + "/plugins/" + dir + "/" + path
  }

  function PluginEntry(dir: string, cfg: ConfigFile, digest: string -> string): Entry {
    EntryFor(PluginTarget(dir, cfg.path), cfg, digest)
  }

  function ServerEntry(cfg: ConfigFile, digest: string -> string): Entry {
    EntryFor(DATA_MOUNT_PATH + "/" + cfg.path, cfg, digest)
  }

  /** A file a matched plugin gets: the server's override, or else the plugin's own default. */
  predicate PluginWants(server: Server, plugin: Plugin, cfg: ConfigFile) {
    var override := OverrideFor(server.pluginConfigs, plugin.name, cfg.path);
    if override.Some? then override.value == cfg else DirName(plugin) != "" && cfg in plugin.configs
  }

  predicate IsOverride(server: Server, name: string, cfg: ConfigFile) {
    OverrideFor(server.pluginConfigs, name, cfg.path) == Some(cfg)
  }

  /** A file configured for a plugin that is not matched: it goes to a directory of the plugin's name. */
  predicate StrayWants(server: Server, plugins: seq<Plugin>, name: string, cfg: ConfigFile) {
    (forall p | p in plugins :: p.name != name) && IsOverride(server, name, cfg)
  }

  ghost predicate FromPlugins(server: Server, plugins: seq<Plugin>, digest: string -> string, e: Entry) {
    exists p, cfg :: p in plugins && PluginWants(server, p, cfg) && e == PluginEntry(DirName(p), cfg, digest)
  }

  ghost predicate FromStrays(server: Server, plugins: seq<Plugin>, digest: string -> string, e: Entry) {
    exists name, cfg :: StrayWants(server, plugins, name, cfg) && e == PluginEntry(name, cfg, digest)
  }

  ghost predicate FromServer(configs: seq<ConfigFile>, digest: string -> string, e: Entry) {
    exists cfg :: cfg in configs && e == ServerEntry(cfg, digest)
  }

  ghost predicate Wanted(server: Server, plugins: seq<Plugin>, digest: string -> string, e: Entry) {
    FromPlugins(server, plugins, digest, e) || FromStrays(server, plugins, digest, e) || FromServer(server.serverConfigs, digest, e)
  }

  // ---------------------------------------------------------------- when targets are distinct

  ghost predicate DistinctPaths(configs: seq<ConfigFile>) {
    forall i, j | 0 <= i < j < |configs| :: configs[i].path != configs[j].path
  }

  /** The directory is a single path segment of its own among those of the plugins. */
  ghost predicate DistinctDirs(plugins: seq<Plugin>) {
    && (forall p | p in plugins :: '/' !in DirName(p) && DistinctPaths(p.configs))
    && (forall i, j | 0 <= i < j < |plugins| :: DirName(plugins[i]) != DirName(plugins[j]))
  }

  /** What admission and naming leave to be checked: directories and paths that cannot clash. */
  ghost predicate WellFormed(server: Server, plugins: seq<Plugin>) {
    && DistinctDirs(plugins)
    && (forall pc | pc in server.pluginConfigs && (forall p | p in plugins :: p.name != pc.pluginName) ::
          '/' !in pc.pluginName && forall p | p in plugins :: DirName(p) != pc.pluginName)
    && DistinctPaths(server.serverConfigs)
    && (forall cfg | cfg in server.serverConfigs :: !("plugins/" <= cfg.path))
  }

  /** Plugin files clash only with the same path of the same directory. */
  lemma PluginTargetsApart(dir: string, path: string, dir': string, path': string)
    requires '/' !in dir && '/' !in dir'
    ensures PluginTarget(dir, path) == PluginTarget(dir', path') ==> dir == dir' && path == path'
  {
    var base := DATA_MOUNT_PATH + "/plugins/";
    if PluginTarget(dir, path) == PluginTarget(dir', path') {
      assert PluginTarget(dir, path) == base + (dir + "/" + path);
      assert PluginTarget(dir', path') == base + (dir' + "/" + path');
      CancelPrefix(base, dir + "/" + path, dir' + "/" + path');
      SplitAtFirst('/', dir, path, dir', path');
    }
  }

  lemma PathsApart(dir: string, path: string, other: string)
    requires path != other
    ensures PluginTarget(dir, path) != PluginTarget(dir, other)
  {
    var base := DATA_MOUNT_PATH + "/plugins/" + dir + "/";
    if base + path == base + other {
      CancelPrefix(base, path, other);
    }
  }

  lemma ServerTargetsApart(path: string, other: string)
    ensures DATA_MOUNT_PATH + "/" + path == DATA_MOUNT_PATH + "/" + other ==> path == other
  {
    if DATA_MOUNT_PATH + "/" + path == DATA_MOUNT_PATH + "/" + other {
      CancelPrefix(DATA_MOUNT_PATH + "/", path, other);
    }
  }

  /** A server file outside plugins/ never clashes with a plugin file. */
  lemma ServerAndPluginTargetsApart(path: string, dir: string, pluginPath: string)
    requires !("plugins/" <= path)
    ensures DATA_MOUNT_PATH + "/" + path != PluginTarget(dir, pluginPath)
  {
    if DATA_MOUNT_PATH + "/" + path == PluginTarget(dir, pluginPath) {
      var rest := "plugins/" + (dir + "/" + pluginPath);
      assert PluginTarget(dir, pluginPath) == (DATA_MOUNT_PATH + "/") + rest;
      CancelPrefix(DATA_MOUNT_PATH + "/", path, rest);
      assert false;
    }
  }

  lemma AppendDistinct(entries: seq<Entry>, more: seq<Entry>)
    requires DistinctTargets(entries) && DistinctTargets(more)
    requires forall a, b | a in entries && b in more :: a.targetPath != b.targetPath
    ensures DistinctTargets(entries + more)
  {
  }

  // ---------------------------------------------------------------- collecting the entries

  /** The ConfigMap that the entry copies from is among the mounted volumes. */
  ghost predicate Mounted(e: Entry, refs: map<string, VolumeRef>, digest: string -> string) {
    exists cm :: cm in refs && RefOf(cm, digest).mountPath + "/" <= e.sourcePath
  }

  ghost predicate AllMounted(entries: seq<Entry>, refs: map<string, VolumeRef>, digest: string -> string) {
    (forall cm | cm in refs :: refs[cm] == RefOf(cm, digest)) && forall e | e in entries :: Mounted(e, refs, digest)
  }

  /** Adds one entry and the volume it needs. */
  method AddEntry(entries: seq<Entry>, target: string, cfg: ConfigFile, digest: string -> string, refs: map<string, VolumeRef>)
    returns (entries': seq<Entry>, refs': map<string, VolumeRef>)
    ensures entries' == entries + [EntryFor(target, cfg, digest)]
    ensures refs' == refs[cfg.configMap := RefOf(cfg.configMap, digest)]
    ensures AllMounted(entries, refs, digest) ==> AllMounted(entries', refs', digest)
  {
    var e := EntryFor(target, cfg, digest);
    entries', refs' := entries + [e], refs[cfg.configMap := RefOf(cfg.configMap, digest)];
    assert RefOf(cfg.configMap, digest).mountPath + "/" <= e.sourcePath;
    assert cfg.configMap in refs' && Mounted(e, refs', digest);
    assert forall o | Mounted(o, refs, digest) :: Mounted(o, refs', digest) by {
      forall o | Mounted(o, refs, digest) ensures Mounted(o, refs', digest) {
        var cm :| cm in refs && RefOf(cm, digest).mountPath + "/" <= o.sourcePath;
        assert cm in refs';
      }
    }
  }

  predicate HasConfigPath(configs: seq<ConfigFile>, path: string) {
    exists c | c in configs :: c.path == path
  }

  function Lookup(configs: map<string, ConfigFile>, path: string): Option<ConfigFile> {
    if path in configs then Some(configs[path]) else None
  }

  function OverridesOf(overrides: Overrides, name: string): map<string, ConfigFile> {
    if name in overrides then overrides[name] else map[]
  }

  ghost predicate Names(pluginConfigs: seq<PluginConfig>, name: string) {
    exists pc :: pc in pluginConfigs && pc.pluginName == name
  }

  ghost predicate Agrees(overrides: Overrides, pluginConfigs: seq<PluginConfig>) {
    && (forall name :: name in overrides <==> Names(pluginConfigs, name))
    && (forall name, path :: OverrideFor(pluginConfigs, name, path) == Lookup(OverridesOf(overrides, name), path))
  }

  /** A later override of the same plugin and path replaces an earlier one. */
  method BuildServerOverridesMap(pluginConfigs: seq<PluginConfig>) returns (overrides: Overrides)
    ensures Agrees(overrides, pluginConfigs)
  {
    overrides := map[];
    for i := 0 to |pluginConfigs|
      invariant Agrees(overrides, pluginConfigs[..i])
    {
      var pc := pluginConfigs[i];
      var own := OverridesOf(overrides, pc.pluginName);
      ghost var start := own;
      for j := 0 to |pc.configs|
        invariant forall path :: Lookup(own, path) ==
                    var found := LastFor(pc.configs[..j], path); if found.Some? then found else Lookup(start, path)
      {
        own := own[pc.configs[j].path := pc.configs[j]];
        assert pc.configs[..j + 1][..j] == pc.configs[..j];
      }
      assert pc.configs[..|pc.configs|] == pc.configs;
      assert pluginConfigs[..i + 1] == pluginConfigs[..i] + [pc];
      assert forall name :: Names(pluginConfigs[..i + 1], name) <==> Names(pluginConfigs[..i], name) || name == pc.pluginName by {
        assert pc in pluginConfigs[..i + 1];
      }
      overrides := overrides[pc.pluginName := own];
    }
    assert pluginConfigs[..|pluginConfigs|] == pluginConfigs;
  }

  /** The entry of an override for one of the paths, unless it is the path of a default. */
  ghost predicate Overriding(dir: string, overrides: map<string, ConfigFile>, paths: set<string>, defaults: seq<ConfigFile>,
                             digest: string -> string, e: Entry) {
    exists path :: path in paths && path in overrides && !HasConfigPath(defaults, path) && e == PluginEntry(dir, overrides[path], digest)
  }

  lemma OverridingOneMore(dir: string, overrides: map<string, ConfigFile>, paths: set<string>, path: string, defaults: seq<ConfigFile>,
                          digest: string -> string, e: Entry)
    requires path in overrides
    ensures Overriding(dir, overrides, paths + {path}, defaults, digest, e) <==>
              Overriding(dir, overrides, paths, defaults, digest, e) || (!HasConfigPath(defaults, path) && e == PluginEntry(dir, overrides[path], digest))
  {
    if Overriding(dir, overrides, paths, defaults, digest, e) {
      var q :| q in paths && q in overrides && !HasConfigPath(defaults, q) && e == PluginEntry(dir, overrides[q], digest);
      assert q in paths + {path};
    }
    assert path in paths + {path};
  }

  lemma OverridingApart(dir: string, overrides: map<string, ConfigFile>, paths: set<string>, path: string, defaults: seq<ConfigFile>,
                        digest: string -> string, e: Entry)
    requires forall p | p in overrides :: overrides[p].path == p
    requires Overriding(dir, overrides, paths, defaults, digest, e) && path !in paths
    ensures e.targetPath != PluginTarget(dir, path)
  {
    var q :| q in paths && q in overrides && !HasConfigPath(defaults, q) && e == PluginEntry(dir, overrides[q], digest);
    PathsApart(dir, path, q);
  }

  /** The entries made from overrides, in any order of the map, but for the paths of `defaults`. */
  method AddOverrides(dir: string, overrides: map<string, ConfigFile>, defaults: seq<ConfigFile>, digest: string -> string,
                      refs: map<string, VolumeRef>)
    returns (entries: seq<Entry>, refs': map<string, VolumeRef>)
    requires forall path | path in overrides :: overrides[path].path == path
    requires AllMounted([], refs, digest)
    ensures forall e :: e in entries <==> Overriding(dir, overrides, overrides.Keys, defaults, digest, e)
    ensures DistinctTargets(entries)
    ensures refs.Keys <= refs'.Keys && AllMounted(entries, refs', digest)
  {
    entries, refs' := [], refs;
    var todo := overrides.Keys;
    ghost var done := {};
    while todo != {}
      invariant todo + done == overrides.Keys && todo !! done
      invariant forall e :: e in entries <==> Overriding(dir, overrides, done, defaults, digest, e)
      invariant DistinctTargets(entries)
      invariant refs.Keys <= refs'.Keys && AllMounted(entries, refs', digest)
      decreases todo
    {
      var path :| path in todo;
      forall e { OverridingOneMore(dir, overrides, done, path, defaults, digest, e); }
      if !HasConfigPath(defaults, path) {
        forall e | e in entries ensures e.targetPath != PluginTarget(dir, path) {
          OverridingApart(dir, overrides, done, path, defaults, digest, e);
        }
        AppendDistinct(entries, [PluginEntry(dir, overrides[path], digest)]);
        entries, refs' := AddEntry(entries, PluginTarget(dir, path), overrides[path], digest, refs');
      }
      todo, done := todo - {path}, done + {path};
    }
    assert done == overrides.Keys;
  }

  /** With the overrides of a plugin: the override of the path, or else the default. */
  function Effective(own: map<string, ConfigFile>, cfg: ConfigFile): ConfigFile {
    if cfg.path in own then own[cfg.path] else cfg
  }

  function Defaults(plugin: Plugin): seq<ConfigFile> {
    if DirName(plugin) == "" then [] else plugin.configs
  }

  predicate MergedWants(own: map<string, ConfigFile>, defaults: seq<ConfigFile>, cfg: ConfigFile) {
    if cfg.path in own then own[cfg.path] == cfg else cfg in defaults
  }

  ghost predicate Merged(dir: string, own: map<string, ConfigFile>, defaults: seq<ConfigFile>, digest: string -> string, e: Entry) {
    exists cfg :: MergedWants(own, defaults, cfg) && e == PluginEntry(dir, cfg, digest)
  }

  ghost predicate Defaulted(dir: string, own: map<string, ConfigFile>, defaults: seq<ConfigFile>, digest: string -> string, e: Entry) {
    exists i :: 0 <= i < |defaults| && e == PluginEntry(dir, Effective(own, defaults[i]), digest)
  }

  lemma MergedSplits(dir: string, own: map<string, ConfigFile>, defaults: seq<ConfigFile>, digest: string -> string, e: Entry)
    requires forall path | path in own :: own[path].path == path
    ensures Merged(dir, own, defaults, digest, e) <==>
              Defaulted(dir, own, defaults, digest, e) || Overriding(dir, own, own.Keys, defaults, digest, e)
  {
    if Merged(dir, own, defaults, digest, e) {
      var cfg :| MergedWants(own, defaults, cfg) && e == PluginEntry(dir, cfg, digest);
      if cfg.path !in own {
        var i :| 0 <= i < |defaults| && defaults[i] == cfg;
        assert Effective(own, defaults[i]) == cfg && Defaulted(dir, own, defaults, digest, e);
      } else if HasConfigPath(defaults, cfg.path) {
        var d :| d in defaults && d.path == cfg.path;
        var i :| 0 <= i < |defaults| && defaults[i] == d;
        assert Effective(own, defaults[i]) == cfg && Defaulted(dir, own, defaults, digest, e);
      } else {
        assert cfg.path in own.Keys;
      }
    }
    if Overriding(dir, own, own.Keys, defaults, digest, e) {
      var path :| path in own.Keys && path in own && !HasConfigPath(defaults, path) && e == PluginEntry(dir, own[path], digest);
      assert MergedWants(own, defaults, own[path]);
    }
    if Defaulted(dir, own, defaults, digest, e) {
      var i :| 0 <= i < |defaults| && e == PluginEntry(dir, Effective(own, defaults[i]), digest);
      var cfg := Effective(own, defaults[i]);
      assert MergedWants(own, defaults, cfg);
    }
  }

  // ---------------------------------------------------------------- what no order of a map changes

  /** The defaults of a plugin, each replaced by its override if there is one, in the order of the spec. */
  function DefaultEntries(dir: string, own: map<string, ConfigFile>, defaults: seq<ConfigFile>, digest: string -> string): seq<Entry> {
    seq(|defaults|, i requires 0 <= i < |defaults| => PluginEntry(dir, Effective(own, defaults[i]), digest))
  }

  /** The defaults in their fixed order, and then the other overrides in any order; these have distinct targets. */
  ghost predicate IsBlock(dir: string, own: map<string, ConfigFile>, defaults: seq<ConfigFile>, digest: string -> string, entries: seq<Entry>) {
    exists added :: entries == DefaultEntries(dir, own, defaults, digest) + added && AreAdded(dir, own, defaults, digest, added)
  }

  ghost predicate AreAdded(dir: string, own: map<string, ConfigFile>, defaults: seq<ConfigFile>, digest: string -> string, added: seq<Entry>) {
    DistinctTargets(added) && forall e :: e in added <==> Overriding(dir, own, own.Keys, defaults, digest, e)
  }

  ghost predicate IsPluginBlock(overrides: Overrides, plugin: Plugin, digest: string -> string, entries: seq<Entry>) {
    IsBlock(DirName(plugin), OverridesOf(overrides, plugin.name), Defaults(plugin), digest, entries)
  }

  /** One block per plugin, in the order of the plugins. */
  ghost predicate ArePluginBlocks(overrides: Overrides, plugins: seq<Plugin>, digest: string -> string, entries: seq<Entry>) {
    if plugins == [] then entries == []
    else exists a, b ::
      && entries == a + b
      && ArePluginBlocks(overrides, plugins[..|plugins| - 1], digest, a)
      && IsPluginBlock(overrides, plugins[|plugins| - 1], digest, b)
  }

  ghost predicate StraysSlashFree(server: Server, plugins: seq<Plugin>) {
    forall name | Names(server.pluginConfigs, name) && !MatchedName(plugins, name) :: '/' !in name
  }

  /** The entries of unmatched plugins, in any order; slash-free names have distinct targets. */
  ghost predicate AreStrays(server: Server, plugins: seq<Plugin>, digest: string -> string, entries: seq<Entry>) {
    && (forall e :: e in entries <==> FromStrays(server, plugins, digest, e))
    && (StraysSlashFree(server, plugins) ==> DistinctTargets(entries))
  }

  function ServerEntries(configs: seq<ConfigFile>, digest: string -> string): seq<Entry> {
    seq(|configs|, i requires 0 <= i < |configs| => ServerEntry(configs[i], digest))
  }

  /** What every run of the collection yields, whatever the order of its maps: the blocks in a fixed order. */
  ghost predicate Collected(server: Server, plugins: seq<Plugin>, digest: string -> string, entries: seq<Entry>) {
    exists overrides: Overrides, fromPlugins, strays ::
      && Agrees(overrides, server.pluginConfigs)
      && entries == fromPlugins + strays + ServerEntries(server.serverConfigs, digest)
      && ArePluginBlocks(overrides, plugins, digest, fromPlugins)
      && AreStrays(server, plugins, digest, strays)
  }

  // ---------------------------------------------------------------- collecting plugin by plugin

  /** The server's overrides replace the defaults path by path, and the others are added. */
  method ResolvePluginConfigs(dir: string, defaults: seq<ConfigFile>, own: map<string, ConfigFile>, digest: string -> string,
                              refs: map<string, VolumeRef>)
    returns (entries: seq<Entry>, refs': map<string, VolumeRef>)
    requires forall path | path in own :: own[path].path == path
    requires AllMounted([], refs, digest)
    ensures forall e :: e in entries <==> Merged(dir, own, defaults, digest, e)
    ensures IsBlock(dir, own, defaults, digest, entries)
    ensures DistinctPaths(defaults) ==> DistinctTargets(entries)
    ensures refs.Keys <= refs'.Keys && AllMounted(entries, refs', digest)
  {
    entries, refs' := CollectDefaults(dir, defaults, own, digest, refs);
    ghost var refs0 := refs';
    var added;
    added, refs' := AddOverrides(dir, own, defaults, digest, refs');
    assert AreAdded(dir, own, defaults, digest, added);
    BlockMeaning(dir, own, defaults, digest, entries, added);
    MountedTogether(entries, refs0, added, refs', digest);
    entries := entries + added;
  }

  method CollectDefaults(dir: string, defaults: seq<ConfigFile>, own: map<string, ConfigFile>, digest: string -> string, refs: map<string, VolumeRef>)
    returns (entries: seq<Entry>, refs': map<string, VolumeRef>)
    requires AllMounted([], refs, digest)
    ensures entries == DefaultEntries(dir, own, defaults, digest)
    ensures refs.Keys <= refs'.Keys && AllMounted(entries, refs', digest)
  {
    entries, refs' := [], refs;
    for i := 0 to |defaults|
      invariant |entries| == i && forall j | 0 <= j < i :: entries[j] == PluginEntry(dir, Effective(own, defaults[j]), digest)
      invariant refs.Keys <= refs'.Keys && AllMounted(entries, refs', digest)
    {
      var cfg := Effective(own, defaults[i]);
      entries, refs' := AddEntry(entries, PluginTarget(dir, cfg.path), cfg, digest, refs');
    }
  }

  /** A block holds the merged files, each target once if the default paths are distinct. */
  lemma BlockMeaning(dir: string, own: map<string, ConfigFile>, defaults: seq<ConfigFile>, digest: string -> string, first: seq<Entry>, added: seq<Entry>)
    requires forall path | path in own :: own[path].path == path
    requires first == DefaultEntries(dir, own, defaults, digest) && AreAdded(dir, own, defaults, digest, added)
    ensures forall e :: e in first + added <==> Merged(dir, own, defaults, digest, e)
    ensures DistinctPaths(defaults) ==> DistinctTargets(first + added)
  {
    forall e ensures e in first + added <==> Merged(dir, own, defaults, digest, e) {
      MergedSplits(dir, own, defaults, digest, e);
      if Defaulted(dir, own, defaults, digest, e) {
        var i :| 0 <= i < |defaults| && e == PluginEntry(dir, Effective(own, defaults[i]), digest);
        assert first[i] == e;
      }
    }
    if DistinctPaths(defaults) {
      forall i, j | 0 <= i < j < |first| ensures first[i].targetPath != first[j].targetPath {
        PathsApart(dir, defaults[i].path, defaults[j].path);
      }
      forall a, b | a in first && b in added ensures a.targetPath != b.targetPath {
        DefaultsAndAddedApart(dir, own, defaults, digest, a, b);
      }
      AppendDistinct(first, added);
    }
  }

  lemma DefaultsAndAddedApart(dir: string, own: map<string, ConfigFile>, defaults: seq<ConfigFile>, digest: string -> string, a: Entry, b: Entry)
    requires forall path | path in own :: own[path].path == path
    requires Defaulted(dir, own, defaults, digest, a) && Overriding(dir, own, own.Keys, defaults, digest, b)
    ensures a.targetPath != b.targetPath
  {
    var i :| 0 <= i < |defaults| && a == PluginEntry(dir, Effective(own, defaults[i]), digest);
    var path :| path in own.Keys && path in own && !HasConfigPath(defaults, path) && b == PluginEntry(dir, own[path], digest);
    PathsApart(dir, defaults[i].path, path);
  }

  lemma WantsFromOverrides(server: Server, overrides: Overrides, plugin: Plugin, digest: string -> string, e: Entry)
    requires Agrees(overrides, server.pluginConfigs)
    ensures Merged(DirName(plugin), OverridesOf(overrides, plugin.name), Defaults(plugin), digest, e) <==>
              FromPlugins(server, [plugin], digest, e)
  {
    var own := OverridesOf(overrides, plugin.name);
    forall cfg ensures PluginWants(server, plugin, cfg) <==> MergedWants(own, Defaults(plugin), cfg) {
      assert OverrideFor(server.pluginConfigs, plugin.name, cfg.path) == Lookup(own, cfg.path);
    }
    if FromPlugins(server, [plugin], digest, e) {
      var p, cfg :| p in [plugin] && PluginWants(server, p, cfg) && e == PluginEntry(DirName(p), cfg, digest);
    }
    assert plugin in [plugin];
  }

  lemma OverridePaths(server: Server, overrides: Overrides, name: string)
    requires Agrees(overrides, server.pluginConfigs)
    ensures forall path | path in OverridesOf(overrides, name) :: OverridesOf(overrides, name)[path].path == path
  {
    forall path | path in OverridesOf(overrides, name) ensures OverridesOf(overrides, name)[path].path == path {
      OverrideHasPath(server.pluginConfigs, name, path);
      assert OverrideFor(server.pluginConfigs, name, path) == Lookup(OverridesOf(overrides, name), path);
    }
  }

  lemma FromPluginsOneMore(server: Server, plugins: seq<Plugin>, i: nat, digest: string -> string, e: Entry)
    requires i < |plugins|
    ensures FromPlugins(server, plugins[..i + 1], digest, e) <==>
              FromPlugins(server, plugins[..i], digest, e) || FromPlugins(server, [plugins[i]], digest, e)
  {
    assert forall p :: p in plugins[..i + 1] <==> p in plugins[..i] || p in [plugins[i]] by {
      assert plugins[..i + 1] == plugins[..i] + [plugins[i]];
    }
    if FromPlugins(server, plugins[..i], digest, e) {
      var p, cfg :| p in plugins[..i] && PluginWants(server, p, cfg) && e == PluginEntry(DirName(p), cfg, digest);
      assert p in plugins[..i + 1];
    }
    if FromPlugins(server, [plugins[i]], digest, e) {
      var p, cfg :| p in [plugins[i]] && PluginWants(server, p, cfg) && e == PluginEntry(DirName(p), cfg, digest);
      assert p in plugins[..i + 1];
    }
  }

  /** Files of different plugins never clash when the directories are distinct. */
  lemma PluginsApart(server: Server, plugins: seq<Plugin>, i: nat, digest: string -> string, a: Entry, b: Entry)
    requires DistinctDirs(plugins) && i < |plugins|
    requires FromPlugins(server, plugins[..i], digest, a) && FromPlugins(server, [plugins[i]], digest, b)
    ensures a.targetPath != b.targetPath
  {
    var p, cfg :| p in plugins[..i] && PluginWants(server, p, cfg) && a == PluginEntry(DirName(p), cfg, digest);
    var q, cfg' :| q in [plugins[i]] && PluginWants(server, q, cfg') && b == PluginEntry(DirName(q), cfg', digest);
    var j :| 0 <= j < i && plugins[j] == p;
    assert DirName(plugins[j]) != DirName(plugins[i]) && '/' !in DirName(plugins[j]) && '/' !in DirName(plugins[i]);
    PluginTargetsApart(DirName(p), cfg.path, DirName(q), cfg'.path);
  }

  /** The entries of one matched plugin; a plugin without files or directory only gets overrides. */
  method CollectPlugin(ghost server: Server, plugin: Plugin, overrides: Overrides, digest: string -> string, refs: map<string, VolumeRef>)
    returns (entries: seq<Entry>, consumes: bool, refs': map<string, VolumeRef>)
    requires Agrees(overrides, server.pluginConfigs)
    requires AllMounted([], refs, digest)
    ensures forall e :: e in entries <==> FromPlugins(server, [plugin], digest, e)
    ensures IsPluginBlock(overrides, plugin, digest, entries)
    ensures plugin.name in overrides ==> consumes
    ensures DistinctPaths(plugin.configs) ==> DistinctTargets(entries)
    ensures refs.Keys <= refs'.Keys && AllMounted(entries, refs', digest)
  {
    var dir := DirName(plugin);
    var own := OverridesOf(overrides, plugin.name);
    OverridePaths(server, overrides, plugin.name);
    forall e { WantsFromOverrides(server, overrides, plugin, digest, e); }
    if dir == "" || plugin.configs == [] {
      consumes := plugin.name in overrides;
      entries, refs' := AddOverrides(dir, own, [], digest, refs);
      forall e { MergedSplits(dir, own, [], digest, e); }
      assert AreAdded(dir, own, [], digest, entries) && entries == DefaultEntries(dir, own, [], digest) + entries;
    } else {
      consumes := true;
      entries, refs' := ResolvePluginConfigs(dir, plugin.configs, own, digest, refs);
    }
  }

  method CollectPluginConfigEntries(ghost server: Server, plugins: seq<Plugin>, overrides: Overrides, digest: string -> string,
                                    refs: map<string, VolumeRef>)
    returns (entries: seq<Entry>, consumed: set<string>, refs': map<string, VolumeRef>)
    requires Agrees(overrides, server.pluginConfigs)
    requires AllMounted([], refs, digest)
    ensures forall e :: e in entries <==> FromPlugins(server, plugins, digest, e)
    ensures ArePluginBlocks(overrides, plugins, digest, entries)
    ensures forall name | name in overrides :: name in consumed <==> MatchedName(plugins, name)
    ensures DistinctDirs(plugins) ==> DistinctTargets(entries)
    ensures refs.Keys <= refs'.Keys && AllMounted(entries, refs', digest)
  {
    entries, consumed, refs' := [], {}, refs;
    for i := 0 to |plugins|
      invariant forall e :: e in entries <==> FromPlugins(server, plugins[..i], digest, e)
      invariant ArePluginBlocks(overrides, plugins[..i], digest, entries)
      invariant forall name | name in overrides :: name in consumed <==> MatchedName(plugins[..i], name)
      invariant DistinctDirs(plugins) ==> DistinctTargets(entries)
      invariant refs.Keys <= refs'.Keys && AllMounted(entries, refs', digest)
    {
      var more, consumes;
      ghost var refs0 := refs';
      more, consumes, refs' := CollectPlugin(server, plugins[i], overrides, digest, refs');
      if consumes {
        consumed := consumed + {plugins[i].name};
      }
      MatchedOneMore(plugins, i);
      if DistinctDirs(plugins) {
        forall a, b | a in entries && b in more ensures a.targetPath != b.targetPath {
          PluginsApart(server, plugins, i, digest, a, b);
        }
        AppendDistinct(entries, more);
      }
      forall e { FromPluginsOneMore(server, plugins, i, digest, e); }
      OneMoreBlock(overrides, plugins, i, digest, entries, more);
      MountedTogether(entries, refs0, more, refs', digest);
      entries := entries + more;
    }
    assert plugins[..|plugins|] == plugins;
  }

  lemma OneMoreBlock(overrides: Overrides, plugins: seq<Plugin>, i: nat, digest: string -> string, entries: seq<Entry>, more: seq<Entry>)
    requires i < |plugins| && ArePluginBlocks(overrides, plugins[..i], digest, entries)
    requires IsPluginBlock(overrides, plugins[i], digest, more)
    ensures ArePluginBlocks(overrides, plugins[..i + 1], digest, entries + more)
  {
    assert plugins[..i + 1][..i] == plugins[..i];
  }

  predicate MatchedName(plugins: seq<Plugin>, name: string) {
    exists p | p in plugins :: p.name == name
  }

  lemma MatchedOneMore(plugins: seq<Plugin>, i: nat)
    requires i < |plugins|
    ensures forall name :: MatchedName(plugins[..i + 1], name) <==> MatchedName(plugins[..i], name) || plugins[i].name == name
  {
    assert plugins[..i + 1] == plugins[..i] + [plugins[i]];
    assert plugins[i] in plugins[..i + 1];
  }

  lemma MountedTogether(entries: seq<Entry>, refs: map<string, VolumeRef>, more: seq<Entry>, refs': map<string, VolumeRef>, digest: string -> string)
    requires AllMounted(entries, refs, digest) && AllMounted(more, refs', digest) && refs.Keys <= refs'.Keys
    ensures AllMounted(entries + more, refs', digest)
  {
    forall e | e in entries ensures Mounted(e, refs', digest) {
      assert Mounted(e, refs, digest);
      var cm :| cm in refs && RefOf(cm, digest).mountPath + "/" <= e.sourcePath;
      assert cm in refs';
    }
  }

  /** Overrides for plugins that are not matched still become entries, each plugin with a warning. */
  method CollectUnmatchedOverrideEntries(ghost server: Server, plugins: seq<Plugin>, overrides: Overrides, consumed: set<string>,
                                         digest: string -> string, refs: map<string, VolumeRef>)
    returns (entries: seq<Entry>, warnings: set<string>, refs': map<string, VolumeRef>)
    requires Agrees(overrides, server.pluginConfigs)
    requires forall name | name in overrides :: name in consumed <==> MatchedName(plugins, name)
    requires AllMounted([], refs, digest)
    ensures forall e :: e in entries <==> FromStrays(server, plugins, digest, e)
    ensures forall name :: name in warnings <==> Names(server.pluginConfigs, name) && !MatchedName(plugins, name)
    ensures (forall name | name in warnings :: '/' !in name) ==> DistinctTargets(entries)
    ensures refs.Keys <= refs'.Keys && AllMounted(entries, refs', digest)
  {
    entries, warnings, refs' := [], {}, refs;
    var todo := overrides.Keys;
    while todo != {}
      invariant todo <= overrides.Keys
      invariant forall name :: name in warnings <==> name in overrides && name !in todo && !MatchedName(plugins, name)
      invariant forall e :: e in entries <==> StrayOf(server, warnings, digest, e)
      invariant (forall name | name in warnings :: '/' !in name) ==> DistinctTargets(entries)
      invariant refs.Keys <= refs'.Keys && AllMounted(entries, refs', digest)
      decreases todo
    {
      var name :| name in todo;
      todo := todo - {name};
      if name in consumed {
        continue;
      }
      OverridePaths(server, overrides, name);
      assert OverridesOf(overrides, name) == overrides[name];
      var more;
      ghost var refs0 := refs';
      more, refs' := AddOverrides(name, overrides[name], [], digest, refs');
      if '/' !in name && forall n | n in warnings :: '/' !in n {
        forall a, b | a in entries && b in more ensures a.targetPath != b.targetPath {
          StraysApart(server, warnings, name, overrides[name], digest, a, b);
        }
        AppendDistinct(entries, more);
      }
      MountedTogether(entries, refs0, more, refs', digest);
      forall e { StrayOneMore(server, overrides, warnings, name, digest, e); }
      warnings := warnings + {name};
      entries := entries + more;
    }
    forall e ensures StrayOf(server, warnings, digest, e) <==> FromStrays(server, plugins, digest, e) {
      StraysAreWarned(server, plugins, overrides, warnings, digest, e);
    }
  }

  /** The entry of an override for one of the named plugins. */
  ghost predicate StrayOf(server: Server, names: set<string>, digest: string -> string, e: Entry) {
    exists name, cfg :: name in names && IsOverride(server, name, cfg) && e == PluginEntry(name, cfg, digest)
  }

  lemma StrayOneMore(server: Server, overrides: Overrides, names: set<string>, name: string, digest: string -> string, e: Entry)
    requires Agrees(overrides, server.pluginConfigs) && name in overrides
    ensures StrayOf(server, names + {name}, digest, e) <==>
              StrayOf(server, names, digest, e) || Overriding(name, overrides[name], overrides[name].Keys, [], digest, e)
  {
    OverridePaths(server, overrides, name);
    var own := overrides[name];
    assert own == OverridesOf(overrides, name);
    if StrayOf(server, names + {name}, digest, e) {
      var n, cfg :| n in names + {name} && IsOverride(server, n, cfg) && e == PluginEntry(n, cfg, digest);
      if n == name {
        assert Lookup(own, cfg.path) == Some(cfg) && cfg.path in own.Keys;
      }
    }
    if StrayOf(server, names, digest, e) {
      var n, cfg :| n in names && IsOverride(server, n, cfg) && e == PluginEntry(n, cfg, digest);
      assert n in names + {name};
    }
    if Overriding(name, own, own.Keys, [], digest, e) {
      var path :| path in own.Keys && path in own && e == PluginEntry(name, own[path], digest);
      assert OverrideFor(server.pluginConfigs, name, own[path].path) == Lookup(own, path) == Some(own[path]);
      assert name in names + {name};
    }
  }

  lemma StraysApart(server: Server, names: set<string>, name: string, own: map<string, ConfigFile>, digest: string -> string, a: Entry, b: Entry)
    requires name !in names && '/' !in name && forall n | n in names :: '/' !in n
    requires StrayOf(server, names, digest, a) && Overriding(name, own, own.Keys, [], digest, b)
    ensures a.targetPath != b.targetPath
  {
    var n, cfg :| n in names && IsOverride(server, n, cfg) && a == PluginEntry(n, cfg, digest);
    var path :| path in own.Keys && path in own && b == PluginEntry(name, own[path], digest);
    PluginTargetsApart(n, cfg.path, name, own[path].path);
  }

  lemma StraysAreWarned(server: Server, plugins: seq<Plugin>, overrides: Overrides, warnings: set<string>, digest: string -> string, e: Entry)
    requires Agrees(overrides, server.pluginConfigs)
    requires forall name :: name in warnings <==> name in overrides && !MatchedName(plugins, name)
    ensures StrayOf(server, warnings, digest, e) <==> FromStrays(server, plugins, digest, e)
  {
    if StrayOf(server, warnings, digest, e) {
      var name, cfg :| name in warnings && IsOverride(server, name, cfg) && e == PluginEntry(name, cfg, digest);
      assert StrayWants(server, plugins, name, cfg);
    }
    if FromStrays(server, plugins, digest, e) {
      var name, cfg :| StrayWants(server, plugins, name, cfg) && e == PluginEntry(name, cfg, digest);
      OverrideHasPath(server.pluginConfigs, name, cfg.path);
      assert Names(server.pluginConfigs, name) && name in warnings;
    }
  }

  method CollectServerConfigEntries(configs: seq<ConfigFile>, digest: string -> string, refs: map<string, VolumeRef>)
    returns (entries: seq<Entry>, refs': map<string, VolumeRef>)
    requires AllMounted([], refs, digest)
    ensures forall e :: e in entries <==> FromServer(configs, digest, e)
    ensures entries == ServerEntries(configs, digest)
    ensures DistinctPaths(configs) ==> DistinctTargets(entries)
    ensures refs.Keys <= refs'.Keys && AllMounted(entries, refs', digest)
  {
    entries, refs' := [], refs;
    for i := 0 to |configs|
      invariant |entries| == i && forall j | 0 <= j < i :: entries[j] == ServerEntry(configs[j], digest)
      invariant refs.Keys <= refs'.Keys && AllMounted(entries, refs', digest)
    {
      entries, refs' := AddEntry(entries, DATA_MOUNT_PATH + "/" + configs[i].path, configs[i], digest, refs');
    }
    if DistinctPaths(configs) {
      forall i, j | 0 <= i < j < |entries| ensures entries[i].targetPath != entries[j].targetPath {
        ServerTargetsApart(configs[i].path, configs[j].path);
      }
    }
    forall e ensures e in entries <==> FromServer(configs, digest, e) {
      if FromServer(configs, digest, e) {
        var cfg :| cfg in configs && e == ServerEntry(cfg, digest);
        var i :| 0 <= i < |configs| && configs[i] == cfg;
        assert entries[i] == e;
      }
    }
  }

  method BuildConfigEntries(server: Server, plugins: seq<Plugin>, digest: string -> string)
    returns (entries: seq<Entry>, refs: map<string, VolumeRef>, warnings: set<string>)
    ensures Collected(server, plugins, digest, entries)
    ensures forall e :: e in entries <==> Wanted(server, plugins, digest, e)
    ensures WellFormed(server, plugins) ==> DistinctTargets(entries)
    ensures AllMounted(entries, refs, digest)
    ensures forall name :: name in warnings <==> Names(server.pluginConfigs, name) && !MatchedName(plugins, name)
  {
    var overrides := BuildServerOverridesMap(server.pluginConfigs);
    var fromPlugins, consumed, refs1 := CollectPluginConfigEntries(server, plugins, overrides, digest, map[]);
    var strays, unmatched, refs2 := CollectUnmatchedOverrideEntries(server, plugins, overrides, consumed, digest, refs1);
    var own, refs3 := CollectServerConfigEntries(server.serverConfigs, digest, refs2);
    assert AreStrays(server, plugins, digest, strays);
    MountedTogether(fromPlugins, refs1, strays, refs2, digest);
    MountedTogether(fromPlugins + strays, refs2, own, refs3, digest);
    entries, refs, warnings := fromPlugins + strays + own, refs3, unmatched;
    if WellFormed(server, plugins) {
      PartsApart(server, plugins, digest);
      AppendDistinct(fromPlugins, strays);
      AppendDistinct(fromPlugins + strays, own);
    }
  }

  /** Plugin files, files of unmatched plugins and server files never clash when the specs are well-formed. */
  lemma PartsApart(server: Server, plugins: seq<Plugin>, digest: string -> string)
    requires WellFormed(server, plugins)
    ensures forall a, b | FromPlugins(server, plugins, digest, a) && FromStrays(server, plugins, digest, b) :: a.targetPath != b.targetPath
    ensures forall a, b | (FromPlugins(server, plugins, digest, a) || FromStrays(server, plugins, digest, a)) &&
                          FromServer(server.serverConfigs, digest, b) :: a.targetPath != b.targetPath
    ensures forall name | Names(server.pluginConfigs, name) && !MatchedName(plugins, name) :: '/' !in name
  {
    forall a, b | FromPlugins(server, plugins, digest, a) && FromStrays(server, plugins, digest, b) ensures a.targetPath != b.targetPath {
      var p, cfg :| p in plugins && PluginWants(server, p, cfg) && a == PluginEntry(DirName(p), cfg, digest);
      var name, cfg' :| StrayWants(server, plugins, name, cfg') && b == PluginEntry(name, cfg', digest);
      OverrideHasPath(server.pluginConfigs, name, cfg'.path);
      PluginTargetsApart(DirName(p), cfg.path, name, cfg'.path);
    }
    forall a, b | (FromPlugins(server, plugins, digest, a) || FromStrays(server, plugins, digest, a)) && FromServer(server.serverConfigs, digest, b)
      ensures a.targetPath != b.targetPath
    {
      var cfg' :| cfg' in server.serverConfigs && b == ServerEntry(cfg', digest);
      if FromPlugins(server, plugins, digest, a) {
        var p, cfg :| p in plugins && PluginWants(server, p, cfg) && a == PluginEntry(DirName(p), cfg, digest);
        ServerAndPluginTargetsApart(cfg'.path, DirName(p), cfg.path);
      } else {
        var name, cfg :| StrayWants(server, plugins, name, cfg) && a == PluginEntry(name, cfg, digest);
        ServerAndPluginTargetsApart(cfg'.path, name, cfg.path);
      }
    }
  }
}
