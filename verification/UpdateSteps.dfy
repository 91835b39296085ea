/**
  The steps of an update (internal/controller/update_controller.go): backup, removal of marked
  JARs, downloads, graceful shutdown, image, pod.  Each path is a log of attempts; the order of the
  log is what protects the world of a running server.
 */
module UpdateSteps {
  import opened Wrappers
  import opened Operations
  import opened BackupSession
  import opened ImageTags
  import opened Api
  import opened StatusMerge

  datatype Release = Release(version: string, url: string)

  /** What the spec and the cluster decide before an update: RCON, a required backup, the cached plugin versions. */
  datatype Config = Config(
    rcon: bool, backup: bool, warnings: seq<string>,
    catalog: Option<map<string, seq<Release>>>, validUrl: string -> bool)

  function UrlOf(releases: seq<Release>, version: string): string {
    if releases == [] then "" else if releases[0].version == version then releases[0].url else UrlOf(releases[1..], version)
  }

  predicate NeedsDownload(p: PluginStatus, catalog: map<string, seq<Release>>) {
    p.ref.name in catalog && p.resolvedVersion != "" && p.currentVersion != p.resolvedVersion && UrlOf(catalog[p.ref.name], p.resolvedVersion) != ""
  }

  function Fetched(p: PluginStatus): PluginStatus {
    p.(installedJar := p.ref.name + ".jar")
  }

  // ---------------------------------------------------------------- the parts of an update

  ghost predicate AllOk(steps: seq<Step>) {
    forall s | s in steps :: s.ok
  }

  /** A required backup has created its snapshot. */
  ghost predicate BackedUp(config: Config, b: seq<Step>) {
    config.backup ==> Step(CreateSnapshot, true) in b
  }

  /** Every marked plugin's recorded JAR is removed and its removal reported, and nothing else is removed. */
  ghost predicate RemovedMarked(plugins: seq<PluginStatus>, r: seq<Step>) {
    && AllOk(r)
    && forall p | p in plugins && p.pendingDeletion ::
         Step(ReportRemoved(p.ref.name), true) in r && (p.installedJar != "" ==> Step(RemoveJars(p.installedJar), true) in r)
  }

  ghost predicate IsRemovalLog(plugins: seq<PluginStatus>, r: seq<Step>) {
    forall s | s in r ::
      || (s.event.ReportRemoved? && exists p :: p in plugins && p.pendingDeletion && p.ref.name == s.event.plugin)
      || (s.event.RemoveJars? && exists p :: p in plugins && p.pendingDeletion && p.installedJar == s.event.jar)
  }

  ghost predicate DownloadedNeeded(config: Config, plugins: seq<PluginStatus>, d: seq<Step>) {
    && AllOk(d) && config.catalog.Some?
    && forall p | p in plugins && NeedsDownload(p, config.catalog.value) :: Step(Download(p.ref.name), true) in d
  }

  ghost predicate IsDownloadLog(d: seq<Step>) {
    forall s | s in d :: s.event.Download?
  }

  /** The complete shutdown script, warnings first, ran without a failure. */
  ghost predicate ShutDown(config: Config, s: seq<Step>) {
    config.rcon ==> exists sent, rest ::
      CompletesScript(sent, ShutdownScript(config.warnings)) && s == [Step(CreateRcon, true), Step(ConnectRcon, true)] + sent + rest
  }

  ghost predicate IsShutdownLog(s: seq<Step>) {
    forall x | x in s :: x.event.CreateRcon? || x.event.ConnectRcon? || x.event.Command? || x.event.CloseRcon?
  }

  /** The log of an update in its parts; a part is entered only when the parts before it succeeded. */
  datatype Parts = Parts(backup: seq<Step>, removals: seq<Step>, downloads: seq<Step>, shutdown: seq<Step>, rollout: seq<Step>)

  function Log(p: Parts): seq<Step> {
    p.backup + p.removals + p.downloads + p.shutdown + p.rollout
  }

  ghost predicate InOrder(config: Config, plugins: seq<PluginStatus>, p: Parts, rollout: seq<Event>, mustShutDown: bool) {
    && Disciplined(p.backup, config.rcon) && AutoSaveRestored(p.backup)
    && IsRemovalLog(plugins, p.removals) && IsDownloadLog(p.downloads) && IsShutdownLog(p.shutdown)
    && FollowsScript(p.rollout, rollout)
    && (p.removals + p.downloads + p.shutdown + p.rollout != [] ==> BackedUp(config, p.backup))
    && (p.downloads + p.shutdown + p.rollout != [] ==> RemovedMarked(plugins, p.removals))
    && (p.shutdown + p.rollout != [] ==> DownloadedNeeded(config, plugins, p.downloads))
    && (p.rollout != [] && mustShutDown ==> ShutDown(config, p.shutdown))
  }

  // ---------------------------------------------------------------- the steps

  /**
    A backup re-reads the server to record itself, and hands the copy it read back to its caller: the
    status and the resource version with which the update goes on are those of the re-read server.
   */
  method BackupBeforeUpdate(c: Cluster, config: Config, store: ServerStore, server: Copy, record: string) returns (ok: bool, copy: Copy)
    requires c.log == [] && !c.connected && server.rv <= store.rv
    modifies c, store
    ensures !c.connected && Disciplined(c.log, config.rcon) && AutoSaveRestored(c.log)
    ensures ok ==> BackedUp(config, c.log)
    ensures Refreshed(store, server, copy, record)
    ensures !config.backup ==> copy == server && store.replaced == old(store.replaced)
    ensures store.accepted <= old(store.accepted) + if config.backup then 1 else 0
  {
    copy := server;
    if !config.backup {
      return true, server;
    }
    ok := Attempt(c, CheckSnapshotApi, config.rcon);
    if !ok {
      DisciplineMeaning(c.log, config.rcon);
      return;
    }
    ok := PerformBackup(c, config.rcon);
    copy := store.PersistBackupStatus(server, record);
  }

  method DeleteMarkedPlugins(c: Cluster, plugins: seq<PluginStatus>) returns (ok: bool, ghost r: seq<Step>)
    modifies c`log
    ensures c.log == old(c.log) + r && IsRemovalLog(plugins, r)
    ensures ok <==> AllOk(r)
    ensures ok ==> RemovedMarked(plugins, r)
  {
    r, ok := [], true;
    for i := 0 to |plugins|
      invariant c.log == old(c.log) + r && IsRemovalLog(plugins, r)
      invariant ok <==> AllOk(r)
      invariant ok ==> RemovedMarked(plugins[..i], r)
    {
      var p := plugins[i];
      assert plugins[..i + 1] == plugins[..i] + [p];
      if !p.pendingDeletion {
        continue;
      }
      ghost var was := r;
      var removed := true;
      if p.installedJar != "" {
        removed := c.Do(RemoveJars(p.installedJar));
        r := r + [Step(RemoveJars(p.installedJar), removed)];
      }
      if removed {
        removed := c.Do(ReportRemoved(p.ref.name));
        r := r + [Step(ReportRemoved(p.ref.name), removed)];
      }
      ok := ok && removed;
      assert forall s | s in was :: s in r;
    }
    assert plugins[..|plugins|] == plugins;
  }

  method ApplyPluginUpdates(c: Cluster, config: Config, plugins: seq<PluginStatus>)
    returns (updated: seq<PluginStatus>, ok: bool, ghost d: seq<Step>)
    modifies c`log
    ensures c.log == old(c.log) + d && IsDownloadLog(d)
    ensures ok ==> DownloadedNeeded(config, plugins, d)
    ensures !ok ==> config.catalog.None? || !AllOk(d) ||
                    (exists p :: p in plugins && NeedsDownload(p, config.catalog.value) &&
                                 !config.validUrl(UrlOf(config.catalog.value[p.ref.name], p.resolvedVersion)))
    ensures |updated| == |plugins|
    ensures forall i | 0 <= i < |plugins| ::
              updated[i] == plugins[i] || (updated[i] == Fetched(plugins[i]) && Step(Download(plugins[i].ref.name), true) in d)
    ensures ok ==> forall i | 0 <= i < |plugins| && NeedsDownload(plugins[i], config.catalog.value) :: updated[i] == Fetched(plugins[i])
  {
    updated, ok, d := plugins, true, [];
    if config.catalog.None? {
      ok := false;
      return;
    }
    var catalog := config.catalog.value;
    for i := 0 to |plugins|
      invariant c.log == old(c.log) + d && IsDownloadLog(d)
      invariant |updated| == |plugins|
      invariant forall j | i <= j < |plugins| :: updated[j] == plugins[j]
      invariant forall j | 0 <= j < i ::
                  updated[j] == plugins[j] || (updated[j] == Fetched(plugins[j]) && Step(Download(plugins[j].ref.name), true) in d)
      invariant ok ==> AllOk(d)
      invariant ok ==> forall j | 0 <= j < i && NeedsDownload(plugins[j], catalog) ::
                  updated[j] == Fetched(plugins[j]) && Step(Download(plugins[j].ref.name), true) in d
      invariant !ok ==> !AllOk(d) || (exists p :: p in plugins && NeedsDownload(p, catalog) &&
                                                  !config.validUrl(UrlOf(catalog[p.ref.name], p.resolvedVersion)))
    {
      var p := plugins[i];
      if !NeedsDownload(p, catalog) {
        continue;
      }
      ghost var was := d;
      if !config.validUrl(UrlOf(catalog[p.ref.name], p.resolvedVersion)) {
        ok := false;
        continue;
      }
      var fetched := c.Do(Download(p.ref.name));
      d := d + [Step(Download(p.ref.name), fetched)];
      assert forall s | s in was :: s in d;
      assert Step(Download(p.ref.name), fetched) in d;
      if fetched {
        updated := updated[i := Fetched(p)];
      } else {
        ok := false;
      }
    }
  }

  method ShutDownServer(c: Cluster, config: Config) returns (ok: bool, ghost s: seq<Step>)
    requires !c.connected && config.rcon
    modifies c
    ensures !c.connected && c.log == old(c.log) + s && IsShutdownLog(s)
    ensures ok ==> ShutDown(config, s)
  {
    ghost var part: seq<Step>;
    ok := c.Do(CreateRcon);
    s := [Step(CreateRcon, ok)];
    if !ok {
      return;
    }
    ok, part := c.Connect();
    s := s + part;
    if !ok {
      return;
    }
    ghost var before := s;
    ghost var sent;
    ok, sent := c.GracefulShutdown(config.warnings);
    forall x | x in sent ensures x.event.Command? {
      var i :| 0 <= i < |sent| && sent[i] == x;
      assert sent[i].event == ShutdownScript(config.warnings)[i];
    }
    part := c.Close();
    s := s + sent + part;
    assert s == [Step(CreateRcon, true), Step(ConnectRcon, true)] + sent + part;
  }

  lemma NothingToShutDown(config: Config)
    ensures !config.rcon ==> ShutDown(config, [])
  {
  }

  /** The last steps, each only after the one before succeeded. */
  method RollOut(c: Cluster, script: seq<Event>) returns (ok: bool, ghost t: seq<Step>)
    modifies c`log
    ensures c.log == old(c.log) + t && FollowsScript(t, script)
    ensures ok <==> CompletesScript(t, script)
  {
    t := [];
    for i := 0 to |script|
      invariant c.log == old(c.log) + t && |t| == i
      invariant forall k | 0 <= k < i :: t[k] == Step(script[k], true)
    {
      ok := c.Do(script[i]);
      t := t + [Step(script[i], ok)];
      if !ok {
        assert !t[i].ok;
        return;
      }
    }
    ok := true;
  }

  function CombinedRollout(server: Status): seq<Event> {
    [WriteImage(RenderImage(server.desiredVersion, server.desiredBuild)), DeletePod, AwaitPod]
  }

  const PLUGIN_ROLLOUT := [DeletePod, AwaitPod]

  /** The steps before the shutdown, each only after the one before succeeded; all but the backup work on the refreshed copy. */
  method Prepare(c: Cluster, config: Config, store: ServerStore, server: Copy, record: string)
    returns (copy: Copy, plugins: seq<PluginStatus>, ok: bool, ghost p: Parts)
    requires c.log == [] && !c.connected && server.rv <= store.rv
    modifies c, store
    ensures c.log == Log(p) && !c.connected && p.shutdown == [] && p.rollout == []
    ensures Refreshed(store, server, copy, record)
    ensures !config.backup ==> copy == server && store.replaced == old(store.replaced)
    ensures store.accepted <= old(store.accepted) + if config.backup then 1 else 0
    ensures InOrder(config, copy.status.plugins, p, [], false)
    ensures ok ==> BackedUp(config, p.backup) && RemovedMarked(copy.status.plugins, p.removals) && DownloadedNeeded(config, copy.status.plugins, p.downloads)
    ensures |plugins| == |copy.status.plugins|
  {
    hide Disciplined, AutoSaveRestored, ShutDown, DownloadedNeeded, RemovedMarked;
    ok, copy := BackupBeforeUpdate(c, config, store, server, record);
    plugins := copy.status.plugins;
    p := Parts(c.log, [], [], [], []);
    if !ok {
      return;
    }
    ghost var part: seq<Step>;
    ok, part := DeleteMarkedPlugins(c, plugins);
    p := p.(removals := part);
    if !ok {
      return;
    }
    plugins, ok, part := ApplyPluginUpdates(c, config, copy.status.plugins);
    p := p.(downloads := part);
  }

  /** An update that ends before its rollout. */
  lemma StopsShort(config: Config, plugins: seq<PluginStatus>, p: Parts, shutdown: seq<Step>, script: seq<Event>, mustShutDown: bool)
    requires InOrder(config, plugins, p, [], false) && p.shutdown == [] && p.rollout == [] && IsShutdownLog(shutdown)
    requires shutdown != [] ==> BackedUp(config, p.backup) && RemovedMarked(plugins, p.removals) && DownloadedNeeded(config, plugins, p.downloads)
    ensures InOrder(config, plugins, p.(shutdown := shutdown), script, mustShutDown)
    ensures Log(p.(shutdown := shutdown)) == Log(p) + shutdown
  {
  }

  /** The rollout may start after everything else, and after a complete shutdown where one is a must. */
  lemma Enters(config: Config, plugins: seq<PluginStatus>, p: Parts, t: seq<Step>, script: seq<Event>, mustShutDown: bool)
    requires InOrder(config, plugins, p, script, mustShutDown) && p.rollout == [] && FollowsScript(t, script)
    requires BackedUp(config, p.backup) && RemovedMarked(plugins, p.removals) && DownloadedNeeded(config, plugins, p.downloads)
    requires mustShutDown ==> ShutDown(config, p.shutdown)
    ensures InOrder(config, plugins, p.(rollout := t), script, mustShutDown)
    ensures Log(p.(rollout := t)) == Log(p) + t
  {
  }

  /** Paper and plugins: the shutdown must complete before the image and the pod are touched. */
  method PerformCombinedUpdate(c: Cluster, config: Config, store: ServerStore, server: Copy, record: string)
    returns (copy: Copy, plugins: seq<PluginStatus>, ok: bool, ghost p: Parts)
    requires c.log == [] && !c.connected && server.rv <= store.rv
    modifies c, store
    ensures c.log == Log(p) && InOrder(config, copy.status.plugins, p, CombinedRollout(copy.status), true)
    ensures Refreshed(store, server, copy, record)
    ensures !config.backup ==> copy == server && store.replaced == old(store.replaced)
    ensures store.accepted <= old(store.accepted) + if config.backup then 1 else 0
    ensures ok <==> CompletesScript(p.rollout, CombinedRollout(copy.status))
    ensures |plugins| == |copy.status.plugins|
  {
    hide InOrder, Log, ShutDown, DownloadedNeeded, RemovedMarked, BackedUp, Refreshed;
    copy, plugins, ok, p := Prepare(c, config, store, server, record);
    ghost var part: seq<Step> := [];
    StopsShort(config, copy.status.plugins, p, part, CombinedRollout(copy.status), true);
    assert p == p.(shutdown := part);
    if !ok {
      return;
    }
    NothingToShutDown(config);
    if config.rcon {
      ok, part := ShutDownServer(c, config);
      StopsShort(config, copy.status.plugins, p, part, CombinedRollout(copy.status), true);
      p := p.(shutdown := part);
      if !ok {
        return;
      }
    }
    ok, part := RollOut(c, CombinedRollout(copy.status));
    Enters(config, copy.status.plugins, p, part, CombinedRollout(copy.status), true);
    p := p.(rollout := part);
  }

  /** Plugins only: a shutdown that fails does not stop the restart, everything else does. */
  method PerformPluginOnlyUpdate(c: Cluster, config: Config, store: ServerStore, server: Copy, record: string)
    returns (copy: Copy, plugins: seq<PluginStatus>, ok: bool, ghost p: Parts)
    requires c.log == [] && !c.connected && server.rv <= store.rv
    modifies c, store
    ensures c.log == Log(p) && InOrder(config, copy.status.plugins, p, PLUGIN_ROLLOUT, false)
    ensures Refreshed(store, server, copy, record)
    ensures !config.backup ==> copy == server && store.replaced == old(store.replaced)
    ensures store.accepted <= old(store.accepted) + if config.backup then 1 else 0
    ensures ok <==> CompletesScript(p.rollout, PLUGIN_ROLLOUT)
    ensures |plugins| == |copy.status.plugins|
  {
    hide InOrder, Log, ShutDown, DownloadedNeeded, RemovedMarked, BackedUp, Refreshed;
    copy, plugins, ok, p := Prepare(c, config, store, server, record);
    ghost var part: seq<Step> := [];
    StopsShort(config, copy.status.plugins, p, part, PLUGIN_ROLLOUT, false);
    assert p == p.(shutdown := part);
    if !ok {
      return;
    }
    if config.rcon {
      ok, part := ShutDownServer(c, config);
      StopsShort(config, copy.status.plugins, p, part, PLUGIN_ROLLOUT, false);
      p := p.(shutdown := part);
    }
    ok, part := RollOut(c, PLUGIN_ROLLOUT);
    Enters(config, copy.status.plugins, p, part, PLUGIN_ROLLOUT, false);
    p := p.(rollout := part);
  }

  // ---------------------------------------------------------------- what the order means for a running server

  /** The world was saved and the server stopped, in this order. */
  ghost predicate SavedAndStopped(t: seq<Step>) {
    exists a, b :: 0 <= a < b < |t| && t[a] == Step(SAVE_ALL, true) && t[b] == Step(STOP, true)
  }

  lemma ShutDownSavesAndStops(config: Config, s: seq<Step>)
    requires config.rcon && ShutDown(config, s)
    ensures SavedAndStopped(s)
  {
    var sent, rest :| CompletesScript(sent, ShutdownScript(config.warnings)) &&
      s == [Step(CreateRcon, true), Step(ConnectRcon, true)] + sent + rest;
    var n := |config.warnings|;
    assert sent[n] == Step(SAVE_ALL, true) && sent[n + 1] == Step(STOP, true);
    assert s[n + 2] == sent[n] && s[n + 3] == sent[n + 1];
  }

  lemma SavedWithin(s: seq<Step>, before: seq<Step>, after: seq<Step>)
    requires SavedAndStopped(s)
    ensures SavedAndStopped(before + s + after)
  {
    var a, b :| 0 <= a < b < |s| && s[a] == Step(SAVE_ALL, true) && s[b] == Step(STOP, true);
    var t := before + s + after;
    assert t[|before| + a] == s[a] && t[|before| + b] == s[b];
  }

  /** Everything that must have happened before the image of a combined update is written or the pod deleted. */
  ghost predicate ReadyForRestart(config: Config, plugins: seq<PluginStatus>, t: seq<Step>) {
    && (config.backup ==> Step(CreateSnapshot, true) in t)
    && (forall p | p in plugins && p.pendingDeletion && p.installedJar != "" :: Step(RemoveJars(p.installedJar), true) in t)
    && config.catalog.Some?
    && (forall p | p in plugins && NeedsDownload(p, config.catalog.value) :: Step(Download(p.ref.name), true) in t)
    && (forall s | s in t && (s.event.RemoveJars? || s.event.ReportRemoved? || s.event.Download?) :: s.ok)
  }

  /**
    On every path of a combined update, failing ones included: whenever the image is written or the
    pod deleted, the backup, all removals and all downloads had succeeded and, with RCON, the world
    had been saved and the server stopped; and the pod is only deleted after the image was written.
   */
  lemma CombinedUpdateOrder(config: Config, server: Status, p: Parts, i: nat)
    requires InOrder(config, server.plugins, p, CombinedRollout(server), true)
    requires i < |Log(p)| && (Log(p)[i].event.WriteImage? || Log(p)[i].event.DeletePod?)
    ensures ReadyForRestart(config, server.plugins, Log(p)[..i])
    ensures config.rcon ==> SavedAndStopped(Log(p)[..i])
    ensures Log(p)[i].event.DeletePod? ==>
              Step(WriteImage(RenderImage(server.desiredVersion, server.desiredBuild)), true) in Log(p)[..i]
  {
    var t := Log(p);
    var head := p.backup + p.removals + p.downloads + p.shutdown;
    RestartIsInRollout(config, server.plugins, p, CombinedRollout(server), true, i);
    ReadyAfterParts(config, server.plugins, p, CombinedRollout(server), true, i);
    if config.rcon {
      ShutDownSavesAndStops(config, p.shutdown);
      SavedWithin(p.shutdown, p.backup + p.removals + p.downloads, p.rollout[..i - |head|]);
      assert t[..i] == p.backup + p.removals + p.downloads + p.shutdown + p.rollout[..i - |head|];
    }
    var k := i - |head|;
    assert t[i] == p.rollout[k];
    if t[i].event.DeletePod? {
      assert k == 1 && p.rollout[0].ok;
      assert t[..i][|head|] == p.rollout[0];
    }
  }

  /** On every path of a plugin-only update the pod is deleted only after backup, removals and downloads succeeded. */
  lemma PluginUpdateOrder(config: Config, server: Status, p: Parts, i: nat)
    requires InOrder(config, server.plugins, p, PLUGIN_ROLLOUT, false)
    requires i < |Log(p)| && Log(p)[i].event.DeletePod?
    ensures ReadyForRestart(config, server.plugins, Log(p)[..i])
  {
    RestartIsInRollout(config, server.plugins, p, PLUGIN_ROLLOUT, false, i);
    ReadyAfterParts(config, server.plugins, p, PLUGIN_ROLLOUT, false, i);
  }

  lemma {:induction false} DisciplinedEvents(t: seq<Step>, rcon: bool, i: nat)
    requires Disciplined(t, rcon) && i < |t|
    ensures IsBackupEvent(t[i].event)
  {
    Prefix(t, rcon, i);
  }

  lemma HeadNeverRestarts(config: Config, plugins: seq<PluginStatus>, p: Parts, rollout: seq<Event>, mustShutDown: bool, i: nat)
    requires InOrder(config, plugins, p, rollout, mustShutDown)
    requires i < |p.backup + p.removals + p.downloads + p.shutdown|
    ensures !Log(p)[i].event.WriteImage? && !Log(p)[i].event.DeletePod?
  {
    var t := Log(p);
    var b, r, d := |p.backup|, |p.removals|, |p.downloads|;
    if i < b {
      DisciplinedEvents(p.backup, config.rcon, i);
      assert t[i] == p.backup[i];
    } else if i < b + r {
      assert t[i] == p.removals[i - b] && t[i] in p.removals;
    } else if i < b + r + d {
      assert t[i] == p.downloads[i - b - r] && t[i] in p.downloads;
    } else {
      assert t[i] == p.shutdown[i - b - r - d] && t[i] in p.shutdown;
    }
  }

  lemma RestartIsInRollout(config: Config, plugins: seq<PluginStatus>, p: Parts, rollout: seq<Event>, mustShutDown: bool, i: nat)
    requires InOrder(config, plugins, p, rollout, mustShutDown)
    requires i < |Log(p)| && (Log(p)[i].event.WriteImage? || Log(p)[i].event.DeletePod?)
    ensures i >= |p.backup + p.removals + p.downloads + p.shutdown|
  {
    if i < |p.backup + p.removals + p.downloads + p.shutdown| {
      HeadNeverRestarts(config, plugins, p, rollout, mustShutDown, i);
    }
  }

  lemma ReadyAfterParts(config: Config, plugins: seq<PluginStatus>, p: Parts, rollout: seq<Event>, mustShutDown: bool, i: nat)
    requires InOrder(config, plugins, p, rollout, mustShutDown)
    requires |p.backup + p.removals + p.downloads + p.shutdown| <= i < |Log(p)|
    requires forall e | e in rollout :: e.WriteImage? || e.DeletePod? || e.AwaitPod?
    ensures ReadyForRestart(config, plugins, Log(p)[..i])
  {
    var t := Log(p)[..i];
    var head := p.backup + p.removals + p.downloads + p.shutdown;
    var tail := p.rollout[..i - |head|];
    assert t == head + tail;
    assert p.rollout != [];
    forall s | s in t && (s.event.RemoveJars? || s.event.ReportRemoved? || s.event.Download?) ensures s.ok {
      if s in p.backup {
        var k :| 0 <= k < |p.backup| && p.backup[k] == s;
        DisciplinedEvents(p.backup, config.rcon, k);
      } else if s in tail {
        var k :| 0 <= k < |tail| && tail[k] == s;
        assert p.rollout[k].event == rollout[k] && rollout[k] in rollout;
      }
    }
  }
}
