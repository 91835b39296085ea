/**
  What the config script makes of a server's files (internal/controller/config_injector.go): when the
  order of the map loops does not matter, and what each path gets.
 */
module ConfigMeaning {
  import opened Wrappers
  import opened Text
  import opened ConfigPaths
  import opened ConfigScript
  import opened ConfigOrder
  import opened ConfigEntries

  // ---------------------------------------------------------------- the orders of one block

  lemma {:induction false} DistinctOnce(a: seq<Entry>, x: Entry)
    requires DistinctTargets(a)
    ensures multiset(a)[x] == if x in a then 1 else 0
  {
    if a != [] {
      var n := |a| - 1;
      assert a == a[..n] + [a[n]];
      DistinctOnce(a[..n], x);
      assert a[n] !in a[..n];
    }
  }

  /** Two lists of the same entries with distinct targets are orders of one another. */
  lemma SameMembersPermuted(a: seq<Entry>, b: seq<Entry>)
    requires DistinctTargets(a) && DistinctTargets(b) && forall e :: e in a <==> e in b
    ensures multiset(a) == multiset(b)
  {
    forall x ensures multiset(a)[x] == multiset(b)[x] {
      DistinctOnce(a, x);
      DistinctOnce(b, x);
    }
  }

  /** The targets of the overrides that are added after the defaults. */
  ghost function AddedTargets(dir: string, own: map<string, ConfigFile>, defaults: seq<ConfigFile>): iset<string> {
    iset path | path in own && !HasConfigPath(defaults, path) :: PluginTarget(dir, path)
  }

  lemma AddedAim(dir: string, own: map<string, ConfigFile>, defaults: seq<ConfigFile>, digest: string -> string, added: seq<Entry>)
    requires AreAdded(dir, own, defaults, digest, added) && forall path | path in own :: own[path].path == path
    ensures Aiming(added, AddedTargets(dir, own, defaults))
  {
    forall e | e in added ensures e.targetPath in AddedTargets(dir, own, defaults) {
      assert Overriding(dir, own, own.Keys, defaults, digest, e);
      var path :| path in own.Keys && path in own && !HasConfigPath(defaults, path) && e == PluginEntry(dir, own[path], digest);
    }
  }

  lemma BlocksEquivalent(dir: string, own: map<string, ConfigFile>, defaults: seq<ConfigFile>, digest: string -> string,
                         a: seq<Entry>, b: seq<Entry>)
    requires IsBlock(dir, own, defaults, digest, a) && IsBlock(dir, own, defaults, digest, b)
    requires NoneClash(AddedTargets(dir, own, defaults)) && forall path | path in own :: own[path].path == path
    ensures Equivalent(a, b)
  {
    var d := DefaultEntries(dir, own, defaults, digest);
    var x :| a == d + x && AreAdded(dir, own, defaults, digest, x);
    var y :| b == d + y && AreAdded(dir, own, defaults, digest, y);
    SameMembersPermuted(x, y);
    AddedAim(dir, own, defaults, digest, x);
    UnclashingOrders(x, y, AddedTargets(dir, own, defaults));
    EquivalentToItself(d);
    AppendEquivalent(d, d, x, y);
  }

  /** The overrides of one plugin, by their paths. */
  ghost predicate Keyed(own: map<string, ConfigFile>, paths: set<string>) {
    own.Keys <= paths && forall path | path in own :: own[path].path == path
  }

  ghost function TargetsOf(dir: string, paths: set<string>): iset<string> {
    iset path | path in paths :: PluginTarget(dir, path)
  }

  /**
    For overrides of one plugin with these paths, whatever they copy and under which policy, every
    two orders of the override map have the same outcome on every disk exactly when no two of the
    paths clash: neither is in the way of the other's directory, and they cannot name the same file.
   */
  lemma OverridesAgreeIff(dir: string, paths: set<string>, digest: string -> string)
    ensures (forall own, a, b | Keyed(own, paths) && AreAdded(dir, own, [], digest, a) && AreAdded(dir, own, [], digest, b) :: Equivalent(a, b))
            <==> NoneClash(TargetsOf(dir, paths))
  {
    if NoneClash(TargetsOf(dir, paths)) {
      forall own, a, b | Keyed(own, paths) && AreAdded(dir, own, [], digest, a) && AreAdded(dir, own, [], digest, b)
        ensures Equivalent(a, b)
      {
        assert forall t | t in AddedTargets(dir, own, []) :: t in TargetsOf(dir, paths);
        SameMembersPermuted(a, b);
        AddedAim(dir, own, [], digest, a);
        UnclashingOrders(a, b, AddedTargets(dir, own, []));
      }
    } else {
      var s, t :| s in TargetsOf(dir, paths) && t in TargetsOf(dir, paths) && s != t && Clash(s, t);
      var x :| x in paths && s == PluginTarget(dir, x);
      var y :| y in paths && t == PluginTarget(dir, y);
      hide Equivalent, AreAdded, Clash;
      var own, e, f := ClashingOverrides(dir, x, y, digest);
      assert Keyed(own, paths);
      assert !Equivalent([e, f], [f, e]);
    }
  }

  lemma ClashingOverrides(dir: string, x: string, y: string, digest: string -> string)
    returns (own: map<string, ConfigFile>, e: Entry, f: Entry)
    requires x != y && Clash(PluginTarget(dir, x), PluginTarget(dir, y))
    ensures Keyed(own, {x, y}) && AreAdded(dir, own, [], digest, [e, f]) && AreAdded(dir, own, [], digest, [f, e])
    ensures e.targetPath == PluginTarget(dir, x) && f.targetPath == PluginTarget(dir, y) && !Swappable(e, f)
  {
    var a, b := ClashingNames(PluginTarget(dir, x), PluginTarget(dir, y));
    own := map[x := ConfigFile(x, "a", a, None), y := ConfigFile(y, "b", b, None)];
    e, f := PluginEntry(dir, own[x], digest), PluginEntry(dir, own[y], digest);
    MountedSource("a", a, digest);
    MountedSource("b", b, digest);
    assert e.sourcePath[12] == 'a' && f.sourcePath[12] == 'b';
    ConflictNotSwappable(e, f);
    PathsApart(dir, x, y);
    forall z ensures Overriding(dir, own, own.Keys, [], digest, z) <==> z == e || z == f {
      if z == e {
        assert x in own.Keys;
      }
      if z == f {
        assert y in own.Keys;
      }
    }
  }

  lemma MountedSource(configMap: string, key: string, digest: string -> string)
    requires |configMap| == 1 && '/' !in key
    ensures var s := CONFIG_MOUNT_BASE + "/" + VolumeName(configMap, digest) + "/" + key;
            LastPart(s) == key && |s| > 12 && s[12] == configMap[0]
  {
    hide LastPart;
    var front := CONFIG_MOUNT_BASE + "/" + VolumeName(configMap, digest);
    assert VolumeName(configMap, digest) == "cm-" + configMap;
    assert |front| == 13 && front[12] == configMap[0];
    NamedSource(front, key);
  }

  /** Two spellings of one file. */
  lemma DottedClashes(front: string, name: string)
    requires IsName(name)
    ensures Clash(front + "/" + name, front + "/" + ("." + "/" + name))
  {
    BelowFront(front, name);
    BelowFront(front, "." + "/" + name);
    PlainPart(name);
    PlainPart(".");
    GluedLast(".", name);
    GluedRest(".", name);
    assert Clean(".") == Clean("") + Segment(".");
  }

  /** A file where the other path needs a directory. */
  lemma NestedClashes(front: string, name: string, below: string)
    requires IsName(name) && '/' !in below
    ensures Clash(front + "/" + name, front + "/" + (name + "/" + below))
  {
    BelowFront(front, name);
    BelowFront(front, name + "/" + below);
    PlainPart(name);
    PlainPart(below);
    GluedRest(name, below);
    assert Clean(name) == Clean("") + [name];
  }

  /** Admission accepts these paths side by side as overrides of one plugin, and their order decides the outcome. */
  lemma SpellingsDependOnOrder(dir: string, digest: string -> string) returns (pairs: seq<(Entry, Entry)>)
    ensures |pairs| == 2
    ensures pairs[0].0.targetPath == PluginTarget(dir, "config.yml") && pairs[0].1.targetPath == PluginTarget(dir, "./config.yml")
    ensures pairs[1].0.targetPath == PluginTarget(dir, "a") && pairs[1].1.targetPath == PluginTarget(dir, "a/b")
    ensures forall i | 0 <= i < 2 :: !Swappable(pairs[i].0, pairs[i].1)
  {
    hide Swappable, Clash, Clean, LastPart, Rest;
    var front := DATA_MOUNT_PATH + "/plugins/" + dir;
    DottedClashes(front, "config.yml");
    NestedClashes(front, "a", "b");
    assert PluginTarget(dir, "config.yml") == front + "/" + "config.yml" && PluginTarget(dir, "./config.yml") == front + "/" + ("." + "/" + "config.yml");
    assert PluginTarget(dir, "a") == front + "/" + "a" && PluginTarget(dir, "a/b") == front + "/" + ("a" + "/" + "b");
    var own, e, f := ClashingOverrides(dir, "config.yml", "./config.yml", digest);
    var own', g, h := ClashingOverrides(dir, "a", "a/b", digest);
    pairs := [(e, f), (g, h)];
  }

  /** A single segment that names something. */
  predicate IsName(name: string) {
    name != "" && name != "." && '/' !in name
  }

  /** A path below another one, in parts. */
  lemma BelowFront(front: string, path: string)
    ensures LastPart(front + "/" + path) == LastPart(path)
    ensures Clean(front + "/" + path) == Clean(front) + Clean(path)
    ensures DirOf(front + "/" + path) == Clean(front) + Clean(Rest(path))
  {
    GluedLast(front, path);
    GluedRest(front, path);
    CleanGlued(front, path);
    if '/' in path {
      CleanGlued(front, Rest(path));
    } else {
      PlainPart(path);
    }
  }

  lemma NameBelow(front: string, name: string)
    requires IsName(name)
    ensures Clean(front + "/" + name) == Clean(front) + [name]
  {
    CleanGlued(front, name);
    PlainPart(name);
    assert Clean(name) == Clean("") + [name];
  }

  // ---------------------------------------------------------------- no order of a map matters

  lemma AgreesDetermines(overrides: Overrides, others: Overrides, pluginConfigs: seq<PluginConfig>, name: string)
    requires Agrees(overrides, pluginConfigs) && Agrees(others, pluginConfigs)
    ensures OverridesOf(overrides, name) == OverridesOf(others, name)
  {
    var a, b := OverridesOf(overrides, name), OverridesOf(others, name);
    forall path ensures (path in a <==> path in b) && (path in a ==> a[path] == b[path]) {
      assert Lookup(a, path) == OverrideFor(pluginConfigs, name, path) == Lookup(b, path);
    }
  }

  /** The targets of the overrides of a matched plugin for paths without a default. */
  ghost function OverrideTargets(server: Server, p: Plugin): iset<string> {
    iset path | OverrideFor(server.pluginConfigs, p.name, path).Some? && !HasConfigPath(Defaults(p), path) :: PluginTarget(DirName(p), path)
  }

  ghost function StrayTargets(server: Server, plugins: seq<Plugin>): iset<string> {
    iset name, cfg | StrayWants(server, plugins, name, cfg) :: PluginTarget(name, cfg.path)
  }

  /** The files that are copied in the order of a map do not clash. */
  ghost predicate OverridesFit(server: Server, plugins: seq<Plugin>) {
    (forall p | p in plugins :: NoneClash(OverrideTargets(server, p))) && NoneClash(StrayTargets(server, plugins))
  }

  lemma {:induction false} PluginBlocksEquivalent(server: Server, overrides: Overrides, others: Overrides, plugins: seq<Plugin>,
                                                  digest: string -> string, a: seq<Entry>, b: seq<Entry>)
    requires Agrees(overrides, server.pluginConfigs) && Agrees(others, server.pluginConfigs)
    requires ArePluginBlocks(overrides, plugins, digest, a) && ArePluginBlocks(others, plugins, digest, b)
    requires forall p | p in plugins :: NoneClash(OverrideTargets(server, p))
    ensures Equivalent(a, b)
    decreases |plugins|
  {
    hide Equivalent, Agrees, IsBlock;
    if plugins == [] {
      EquivalentToItself(a);
    } else {
      var front, last := plugins[..|plugins| - 1], plugins[|plugins| - 1];
      var a1, a2 :| a == a1 + a2 && ArePluginBlocks(overrides, front, digest, a1) && IsPluginBlock(overrides, last, digest, a2);
      var b1, b2 :| b == b1 + b2 && ArePluginBlocks(others, front, digest, b1) && IsPluginBlock(others, last, digest, b2);
      PluginBlocksEquivalent(server, overrides, others, front, digest, a1, b1);
      AgreesDetermines(overrides, others, server.pluginConfigs, last.name);
      OverridePaths(server, overrides, last.name);
      TargetsFromOverrides(server, overrides, last);
      BlocksEquivalent(DirName(last), OverridesOf(overrides, last.name), Defaults(last), digest, a2, b2);
      AppendEquivalent(a1, b1, a2, b2);
    }
  }

  lemma TargetsFromOverrides(server: Server, overrides: Overrides, p: Plugin)
    requires Agrees(overrides, server.pluginConfigs)
    ensures AddedTargets(DirName(p), OverridesOf(overrides, p.name), Defaults(p)) == OverrideTargets(server, p)
  {
    var own := OverridesOf(overrides, p.name);
    assert forall path :: path in own <==> OverrideFor(server.pluginConfigs, p.name, path).Some? by {
      forall path ensures path in own <==> OverrideFor(server.pluginConfigs, p.name, path).Some? {
        assert OverrideFor(server.pluginConfigs, p.name, path) == Lookup(own, path);
      }
    }
  }

  /**
    Every order of the map loops gives a script with the same outcome on every disk, if the files that
    are copied in such an order do not clash.  Shared directories and clashes with defaults, server
    files or other plugins do no harm: those have a fixed order.
   */
  lemma EveryOrderSameResult(server: Server, plugins: seq<Plugin>, digest: string -> string, entries: seq<Entry>, others: seq<Entry>,
                             sources: map<string, string>, d: Disk)
    requires StraysSlashFree(server, plugins) && OverridesFit(server, plugins)
    requires Collected(server, plugins, digest, entries) && Collected(server, plugins, digest, others)
    ensures Run(entries, sources, d).ok <==> Run(others, sources, d).ok
    ensures Run(entries, sources, d).ok ==> Run(entries, sources, d) == Run(others, sources, d)
  {
    var tail := ServerEntries(server.serverConfigs, digest);
    var o: Overrides, p, s :| Agrees(o, server.pluginConfigs) && entries == p + s + tail &&
      ArePluginBlocks(o, plugins, digest, p) && AreStrays(server, plugins, digest, s);
    var o': Overrides, p', s' :| Agrees(o', server.pluginConfigs) && others == p' + s' + tail &&
      ArePluginBlocks(o', plugins, digest, p') && AreStrays(server, plugins, digest, s');
    PluginBlocksEquivalent(server, o, o', plugins, digest, p, p');
    StraysEquivalent(server, plugins, digest, s, s');
    AppendEquivalent(p, p', s, s');
    EquivalentToItself(tail);
    AppendEquivalent(p + s, p' + s', tail, tail);
    assert SameOutcome(Run(entries, sources, d), Run(others, sources, d));
  }

  lemma StraysEquivalent(server: Server, plugins: seq<Plugin>, digest: string -> string, s: seq<Entry>, s': seq<Entry>)
    requires StraysSlashFree(server, plugins) && NoneClash(StrayTargets(server, plugins))
    requires AreStrays(server, plugins, digest, s) && AreStrays(server, plugins, digest, s')
    ensures Equivalent(s, s')
  {
    SameMembersPermuted(s, s');
    forall e | e in s ensures e.targetPath in StrayTargets(server, plugins) {
      var name, cfg :| StrayWants(server, plugins, name, cfg) && e == PluginEntry(name, cfg, digest);
    }
    UnclashingOrders(s, s', StrayTargets(server, plugins));
  }

  /** With a slash in a name two unmatched plugins can aim at one file, and their order decides its content. */
  lemma SlashedNamesDependOnOrder(digest: string -> string)
    ensures var a := PluginEntry("x", ConfigFile("y/z", "1", "k", None), digest);
            var b := PluginEntry("x/y", ConfigFile("z", "2", "k", None), digest);
            a.targetPath == b.targetPath && !Swappable(a, b)
  {
    hide Clean, LastPart, Rest, Swappable;
    var a := PluginEntry("x", ConfigFile("y/z", "1", "k", None), digest);
    var b := PluginEntry("x/y", ConfigFile("z", "2", "k", None), digest);
    MountedSource("1", "k", digest);
    MountedSource("2", "k", digest);
    assert a.targetPath == "/data/plugins/x/y/z" && b.targetPath == "/data/plugins/x/y/z";
    assert a.sourcePath[12] == '1' && b.sourcePath[12] == '2';
    SameTargetNotSwappable(a, b);
  }

  lemma SameTargetNotSwappable(a: Entry, b: Entry)
    requires a.targetPath == b.targetPath && Base(a) == Base(b) && a.sourcePath != b.sourcePath
    requires a.overwrite == b.overwrite == Always
    ensures !Swappable(a, b)
  {
    ConflictNotSwappable(a, b);
  }

  // ---------------------------------------------------------------- what each path gets

  /** What a matched plugin wants at a path: the server's override if there is one, or else the plugin's default. */
  function WantedAt(server: Server, p: Plugin, path: string): Option<ConfigFile> {
    var override := OverrideFor(server.pluginConfigs, p.name, path);
    if override.Some? then override else LastFor(Defaults(p), path)
  }

  /** All other wanted entries are apart from this one. */
  ghost predicate SoleAim(server: Server, plugins: seq<Plugin>, digest: string -> string, e: Entry) {
    forall x | Wanted(server, plugins, digest, x) && x != e :: Apart(x, e)
  }

  /**
    What a plugin wants at a path decides its file, if all other wanted files are apart from it: the
    path, or the file of the source's name where the path is a directory on the disk.
   */
  lemma PluginFileMeaning(server: Server, plugins: seq<Plugin>, digest: string -> string, entries: seq<Entry>,
                          sources: map<string, string>, d: Disk, p: Plugin, path: string)
    requires forall e :: e in entries <==> Wanted(server, plugins, digest, e)
    requires Sound(d) && Run(entries, sources, d).ok && p in plugins && WantedAt(server, p, path).Some?
    requires SoleAim(server, plugins, digest, PluginEntry(DirName(p), WantedAt(server, p, path).value, digest))
    ensures var e := PluginEntry(DirName(p), WantedAt(server, p, path).value, digest);
            var after := Run(entries, sources, d).disk;
            && e.targetPath == PluginTarget(DirName(p), path) && CanRun(e, sources, d)
            && Place(e, d) in after.files && after.files[Place(e, d)] == Written(e, sources, d)
  {
    OverrideHasPath(server.pluginConfigs, p.name, path);
    LastForHasPath(Defaults(p), path);
    var cfg := WantedAt(server, p, path).value;
    var e := PluginEntry(DirName(p), cfg, digest);
    assert PluginWants(server, p, cfg) && FromPlugins(server, plugins, digest, e);
    SoleEntryDecides(entries, sources, d, e);
  }

  /** Directories and cleaned paths that do not meet: what admission and naming leave to be checked. */
  ghost predicate CleanSpecs(server: Server, plugins: seq<Plugin>) {
    && (forall p | p in plugins :: IsName(DirName(p)))
    && (forall i, j | 0 <= i < j < |plugins| :: DirName(plugins[i]) != DirName(plugins[j]))
    && (forall name | Names(server.pluginConfigs, name) && !MatchedName(plugins, name) ::
          IsName(name) && forall p | p in plugins :: DirName(p) != name)
    && (forall cfg | cfg in server.serverConfigs :: Clean(cfg.path) != [] && Clean(cfg.path)[0] != "plugins")
    && (forall p, cfg | p in plugins && PluginWants(server, p, cfg) :: Named(cfg.path))
    && (forall p, a, b | p in plugins && PluginWants(server, p, a) && PluginWants(server, p, b) && a != b :: Incomparable(Clean(a.path), Clean(b.path)))
    && (forall name, cfg | StrayWants(server, plugins, name, cfg) :: Clean(cfg.path) != [])
  }

  lemma DataSegment()
    ensures Clean(DATA_MOUNT_PATH) == ["data"]
  {
    NameBelow("", "data");
    assert DATA_MOUNT_PATH == "" + "/" + "data";
  }

  lemma NameIsSegment(dir: string)
    requires IsName(dir)
    ensures Clean(DATA_MOUNT_PATH + "/plugins/" + dir) == ["data", "plugins", dir]
  {
    DataSegment();
    hide Clean, LastPart, Rest;
    NameBelow(DATA_MOUNT_PATH, "plugins");
    NameBelow(DATA_MOUNT_PATH + "/" + "plugins", dir);
    assert DATA_MOUNT_PATH + "/plugins/" + dir == (DATA_MOUNT_PATH + "/" + "plugins") + "/" + dir;
  }

  lemma AimExtendsTarget(e: Entry, p: Path)
    requires p == Target(e)
    ensures p <= Aim(e) && (Named(e.targetPath) ==> Aim(e) == p)
  {
  }

  lemma PluginAim(dir: string, cfg: ConfigFile, digest: string -> string)
    requires IsName(dir)
    ensures ["data", "plugins", dir] + Clean(cfg.path) <= Aim(PluginEntry(dir, cfg, digest))
    ensures Named(cfg.path) ==> Aim(PluginEntry(dir, cfg, digest)) == ["data", "plugins", dir] + Clean(cfg.path)
  {
    hide Clean, LastPart, Rest;
    NameIsSegment(dir);
    var front := DATA_MOUNT_PATH + "/plugins/" + dir;
    BelowFront(front, cfg.path);
    assert PluginTarget(dir, cfg.path) == front + "/" + cfg.path;
    AimExtendsTarget(PluginEntry(dir, cfg, digest), ["data", "plugins", dir] + Clean(cfg.path));
  }

  lemma ServerAim(cfg: ConfigFile, digest: string -> string)
    ensures ["data"] + Clean(cfg.path) <= Aim(ServerEntry(cfg, digest))
  {
    hide Clean, LastPart, Rest;
    DataSegment();
    BelowFront(DATA_MOUNT_PATH, cfg.path);
    AimExtendsTarget(ServerEntry(cfg, digest), ["data"] + Clean(cfg.path));
  }

  /** Under these conditions every file that a matched plugin wants is apart from all others. */
  lemma CleanSpecsAreApart(server: Server, plugins: seq<Plugin>, digest: string -> string, p: Plugin, cfg: ConfigFile)
    requires CleanSpecs(server, plugins) && p in plugins && PluginWants(server, p, cfg)
    ensures SoleAim(server, plugins, digest, PluginEntry(DirName(p), cfg, digest))
  {
    hide Clean, LastPart, Rest, Aim;
    var e := PluginEntry(DirName(p), cfg, digest);
    PluginAim(DirName(p), cfg, digest);
    forall x | Wanted(server, plugins, digest, x) && x != e ensures Apart(x, e) {
      if FromPlugins(server, plugins, digest, x) {
        var q, c :| q in plugins && PluginWants(server, q, c) && x == PluginEntry(DirName(q), c, digest);
        PluginAim(DirName(q), c, digest);
        if p == q {
          SameDirApart(DirName(p), Clean(c.path), Clean(cfg.path));
        } else {
          OtherDirs(plugins, p, q);
          assert Aim(x)[2] != Aim(e)[2];
        }
      } else if FromStrays(server, plugins, digest, x) {
        var name, c :| StrayWants(server, plugins, name, c) && x == PluginEntry(name, c, digest);
        OverrideHasPath(server.pluginConfigs, name, c.path);
        PluginAim(name, c, digest);
        assert Aim(x)[2] == name && Aim(e)[2] == DirName(p);
      } else {
        var c :| c in server.serverConfigs && x == ServerEntry(c, digest);
        ServerAim(c, digest);
        assert Aim(x)[1] == Clean(c.path)[0] && Aim(e)[1] == "plugins";
      }
    }
  }

  lemma FrontCancels(front: Path, p: Path, q: Path)
    ensures front + p <= front + q ==> p <= q
  {
    if front + p <= front + q {
      assert (front + p)[|front|..] == p && (front + q)[|front|..|front + p|] == q[..|p|];
    }
  }

  lemma SameDirApart(dir: string, p: Path, q: Path)
    requires Incomparable(p, q)
    ensures Incomparable(["data", "plugins", dir] + p, ["data", "plugins", dir] + q)
  {
    FrontCancels(["data", "plugins", dir], p, q);
    FrontCancels(["data", "plugins", dir], q, p);
  }

  lemma OtherDirs(plugins: seq<Plugin>, p: Plugin, q: Plugin)
    requires forall i, j | 0 <= i < j < |plugins| :: DirName(plugins[i]) != DirName(plugins[j])
    requires p in plugins && q in plugins && p != q
    ensures DirName(p) != DirName(q)
  {
    var i :| 0 <= i < |plugins| && plugins[i] == p;
    var j :| 0 <= j < |plugins| && plugins[j] == q;
  }
}
