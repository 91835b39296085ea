/**
  What an update leaves in the API server (internal/controller/update_controller.go): which of its
  two forms it takes is decided by the copy it begins with, everything else by the copy that the
  backup hands back, and the result is stored with retry on conflict.
 */
module UpdateOutcome {
  import opened Wrappers
  import opened Api
  import opened Operations
  import opened StatusMerge
  import opened UpdateSteps

  predicate PaperChanged(s: Status) {
    s.desiredVersion != s.currentVersion || s.desiredBuild != s.currentBuild
  }

  predicate SameCurrent(s: Status, t: Status) {
    s.currentVersion == t.currentVersion && s.currentBuild == t.currentBuild
  }

  /** Current is what was desired. */
  predicate CaughtUp(s: Status, before: Status) {
    s.currentVersion == before.desiredVersion && s.currentBuild == before.desiredBuild
  }

  function Installed(plugins: seq<PluginStatus>): seq<PluginStatus> {
    seq(|plugins|, i requires 0 <= i < |plugins| =>
      if plugins[i].resolvedVersion != "" then plugins[i].(currentVersion := plugins[i].resolvedVersion) else plugins[i])
  }

  method UpdateServerStatus(server: Status, successful: bool, now: int) returns (after: Status)
    ensures !successful ==> after == server.(lastUpdate := Some(History(now, server.currentVersion, false)))
    ensures successful ==>
              after == server.(lastUpdate := Some(History(now, server.currentVersion, true)), availableUpdate := None,
                               currentVersion := server.desiredVersion, currentBuild := server.desiredBuild,
                               plugins := Installed(server.plugins))
  {
    after := server.(lastUpdate := Some(History(now, server.currentVersion, successful)));
    if successful {
      after := after.(availableUpdate := None, currentVersion := server.desiredVersion, currentBuild := server.desiredBuild);
      ghost var start := after;
      for i := 0 to |server.plugins|
        invariant |after.plugins| == |server.plugins| && after == start.(plugins := after.plugins)
        invariant forall j | 0 <= j < i :: after.plugins[j] == Installed(server.plugins)[j]
        invariant forall j | i <= j < |server.plugins| :: after.plugins[j] == server.plugins[j]
      {
        var p := after.plugins[i];
        if p.resolvedVersion != "" {
          after := after.(plugins := after.plugins[i := p.(currentVersion := p.resolvedVersion)]);
        }
      }
      assert after.plugins == Installed(server.plugins);
    }
  }

  function Script(combined: bool, s: Status): seq<Event> {
    if combined then CombinedRollout(s) else PLUGIN_ROLLOUT
  }

  ghost predicate WroteImage(p: Parts) {
    exists s :: s in p.rollout && s.event.WriteImage? && s.ok
  }

  /**
    One gated update.  Its copy's current Paper version becomes the desired one of the same copy
    exactly on success.  A success that records another version without having written the image
    happens exactly when the update took the plugin-only form and the refreshed copy then desired
    another version than its current one.
   */
  method RunUpdate(c: Cluster, config: Config, store: ServerStore, server: Copy, record: string, now: int)
    returns (copy: Copy, after: Status, ok: bool, ghost p: Parts)
    requires c.log == [] && !c.connected && server.rv <= store.rv
    modifies c, store
    ensures c.log == Log(p)
    ensures Refreshed(store, server, copy, record)
    ensures !config.backup ==> copy == server && store.replaced == old(store.replaced)
    ensures store.accepted <= old(store.accepted) + if config.backup then 1 else 0
    ensures InOrder(config, copy.status.plugins, p, Script(PaperChanged(server.status), copy.status), PaperChanged(server.status))
    ensures ok <==> CompletesScript(p.rollout, Script(PaperChanged(server.status), copy.status))
    ensures if ok then CaughtUp(after, copy.status) else SameCurrent(after, copy.status)
    ensures ok && !SameCurrent(after, copy.status) && !WroteImage(p) <==>
              ok && !PaperChanged(server.status) && PaperChanged(copy.status)
    ensures after.lastUpdate == Some(History(now, copy.status.currentVersion, ok))
    ensures !ok ==> after.availableUpdate == copy.status.availableUpdate
  {
    hide InOrder, Refreshed, Log;
    var plugins;
    if PaperChanged(server.status) {
      copy, plugins, ok, p := PerformCombinedUpdate(c, config, store, server, record);
    } else {
      copy, plugins, ok, p := PerformPluginOnlyUpdate(c, config, store, server, record);
    }
    after := UpdateServerStatus(copy.status.(plugins := plugins), ok, now);
    ImageInScript(p, PaperChanged(server.status), copy.status);
  }

  /** A completed rollout wrote the image exactly when it was the combined one. */
  lemma ImageInScript(p: Parts, combined: bool, s: Status)
    ensures CompletesScript(p.rollout, Script(combined, s)) ==> (WroteImage(p) <==> combined)
  {
    if CompletesScript(p.rollout, Script(combined, s)) {
      if combined {
        assert p.rollout[0] in p.rollout;
      } else {
        forall x | x in p.rollout ensures !x.event.WriteImage? {
          var i :| 0 <= i < |p.rollout| && p.rollout[i] == x;
          assert x.event == PLUGIN_ROLLOUT[i];
        }
      }
    }
  }

  /**
    One update and its status write.  Written without a conflict, the stored current version is the
    one that the refreshed copy desired, on success, or its current one, on failure.  After a conflict
    it is that of the concurrent writer, also when the update succeeded; and when the write fails,
    at most the backup's record is stored.
   */
  method UpdateAndStore(c: Cluster, config: Config, store: ServerStore, server: Copy, record: string, now: int)
    returns (copy: Copy, ok: bool, r: Outcome, ghost p: Parts, ghost writes: nat)
    requires c.log == [] && !c.connected && server.rv <= store.rv
    modifies c, store
    ensures c.log == Log(p) && (!config.backup ==> copy == server)
    ensures InOrder(config, copy.status.plugins, p, Script(PaperChanged(server.status), copy.status), PaperChanged(server.status))
    ensures r.Stored? && writes == 1 ==>
              && store.replaced.rv == copy.rv
              && (if ok then CaughtUp(store.stored, copy.status) else SameCurrent(store.stored, copy.status))
              && (ok && !SameCurrent(store.stored, copy.status) && !WroteImage(p) <==>
                  ok && !PaperChanged(server.status) && PaperChanged(copy.status))
    ensures r.Stored? && writes > 1 ==>
              store.replaced.rv > copy.rv && SameCurrent(store.stored, store.replaced.status)
    ensures r.Stored? ==> store.stored.lastUpdate == Some(History(now, copy.status.currentVersion, ok))
    ensures !r.Stored? ==> store.accepted <= old(store.accepted) + if config.backup then 1 else 0
    ensures !r.Stored? && !config.backup ==> store.replaced == old(store.replaced)
  {
    hide InOrder, Log;
    var after;
    copy, after, ok, p := RunUpdate(c, config, store, server, record, now);
    r, writes := store.UpdateStatusWithRetry(Copy(copy.rv, after));
  }
}
