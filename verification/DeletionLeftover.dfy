/**
  Where a plugin of the same name was deleted before and its request is still on a server, the new
  deletion can end for a reason that is older than itself: the run that shows it.
 */
module DeletionLeftover {
  import opened Wrappers
  import opened Api
  import opened DeletionProgress
  import opened DeletionProtocol

  /** Part of a run. */
  ghost predicate Steps(plugin: Key, ws: seq<World>, acts: seq<Action>) {
    |ws| == |acts| + 1 && forall i: nat | i < |acts| :: IsStep(plugin, ws, acts, i)
  }

  lemma Joined(plugin: Key, ws: seq<World>, acts: seq<Action>, vs: seq<World>, bs: seq<Action>)
    requires Steps(plugin, ws, acts) && Steps(plugin, vs, bs) && ws[|acts|] == vs[0]
    ensures Steps(plugin, ws[..|acts|] + vs, acts + bs)
  {
    hide Apply, Enabled;
    var us := ws[..|acts|] + vs;
    forall i: nat | i < |acts + bs| ensures IsStep(plugin, us, acts + bs, i) {
      if i < |acts| {
        assert IsStep(plugin, ws, acts, i);
      } else {
        assert IsStep(plugin, vs, bs, i - |acts|);
      }
    }
  }

  const NEW_JAR := "new.jar"

  /** The server as it is when the plugin has been installed anew. */
  function Reinstalled(plugin: Key): seq<Installed> {
    [Installed(plugin, NEW_JAR, false)]
  }

  /** A worker that is about to report server k done, while the cache has the reinstalled plugin. */
  ghost predicate Ready(w: World, plugin: Key, k: Key) {
    && w.finalizer && w.plugin.progress == [] && w.pass.Idle? && w.pluginVersions == {w.plugin}
    && w.cache == |w.past| && k in w.servers && w.servers[k].installed == Reinstalled(plugin)
    && 0 in w.workers && ((w.workers[0].Picked? && w.workers[0].x.jar == "") || w.workers[0].Removed?)
    && w.workers[0].server == k
  }

  lemma OneStep(plugin: Key, w: World, a: Action)
    requires Enabled(w, plugin, a)
    ensures Steps(plugin, [w, Apply(w, plugin, a)], [a])
  {
  }

  /** A worker takes up the leftover request. */
  lemma Taken(w: World, plugin: Key, k: Key) returns (ws: seq<World>, acts: seq<Action>)
    requires Initial(w) && k in Cached(w) && CarriesRequest(Cached(w)[k].installed, plugin)
    ensures Steps(plugin, ws, acts) && ws[0] == w && 1 <= |acts| <= 2
    ensures forall v | v in ws :: v.past == w.past
    ensures var v := ws[|acts|];
            && v == w.(disks := v.disks, workers := v.workers)
            && 0 in v.workers && ((v.workers[0].Picked? && v.workers[0].x.jar == "") || v.workers[0].Removed?) && v.workers[0].server == k
  {
    var s := Cached(w)[k];
    var x :| x in s.installed && x.plugin == plugin && x.pending;
    var start, remove := WorkerStart(0, k, s, x), WorkerRemove(0, true);
    var w1 := w.(workers := map[0 := Picked(k, s, x)]);
    assert Apply(w, plugin, start) == w1;
    OneStep(plugin, w, start);
    ws, acts := [w, w1], [start];
    if x.jar != "" {
      OneStep(plugin, w1, remove);
      var w2 := Apply(w1, plugin, remove);
      Joined(plugin, ws, acts, [w1, w2], [remove]);
      ws, acts := ws[..1] + [w1, w2], acts + [remove];
    }
  }

  /** The plugin is installed anew, and the cache sees it. */
  lemma InstalledAnew(w: World, plugin: Key, k: Key) returns (ws: seq<World>, acts: seq<Action>)
    requires w.cache <= |w.past|
    ensures Steps(plugin, ws, acts) && ws[0] == w && |acts| == 2 && !acts[0].WorkerRemove? && !acts[1].WorkerRemove?
    ensures var v := ws[2];
            && v == w.(past := w.past + [w.servers], servers := v.servers, nextRv := v.nextRv, cache := |w.past| + 1)
            && k in v.servers && v.servers[k].installed == Reinstalled(plugin)
  {
    var change, move := SetServer(k, Some(Reinstalled(plugin))), CacheMove(|w.past| + 1);
    var w1 := Apply(w, plugin, change);
    OneStep(plugin, w, change);
    OneStep(plugin, w1, move);
    Joined(plugin, [w, w1], [change], [w1, Apply(w1, plugin, move)], [move]);
    ws, acts := [w, w1][..1] + [w1, Apply(w1, plugin, move)], [change] + [move];
  }

  /** A worker takes up the leftover request, and then the plugin is installed anew. */
  lemma LeftoverTaken(w: World, plugin: Key, k: Key) returns (ws: seq<World>, acts: seq<Action>)
    requires Initial(w) && k in Cached(w) && CarriesRequest(Cached(w)[k].installed, plugin)
    ensures Steps(plugin, ws, acts) && ws[0] == w && Ready(ws[|acts|], plugin, k)
    ensures |ws[|acts|].past| == |w.past| + 1
    ensures forall i | 0 <= i < |acts| && acts[i].WorkerRemove? :: ws[i].past == w.past
  {
    hide Apply, Enabled;
    var us, bs := Taken(w, plugin, k);
    var vs, cs := InstalledAnew(us[|bs|], plugin, k);
    Joined(plugin, us, bs, vs, cs);
    ws, acts := us[..|bs|] + vs, bs + cs;
    forall i | |bs| <= i < |acts| ensures !acts[i].WorkerRemove? {
      assert acts[i] == cs[i - |bs|];
    }
    forall i | 0 <= i < |acts| && acts[i].WorkerRemove? ensures ws[i].past == w.past {
      assert ws[i] == us[i] && us[i] in us;
    }
  }

  /** What stays as it was from the listing on. */
  ghost predicate Frozen(w: World, v: World) {
    v.past == w.past && v.servers == w.servers && v.cache == w.cache && v.now == w.now
  }

  /** The list has no entry, or just the one of server k, requested now. */
  ghost predicate OnlyNow(v: World, k: Key) {
    forall e | e in v.plugin.progress :: e.server == k && e.requestedAt == Some(v.now)
  }

  ghost predicate Quiet(w: World, k: Key, vs: seq<World>, bs: seq<Action>) {
    && (forall v | v in vs :: Frozen(w, v) && OnlyNow(v, k))
    && (forall b | b in bs :: !b.WorkerRemove?)
  }

  lemma QuietJoined(plugin: Key, w: World, k: Key, vs: seq<World>, bs: seq<Action>, xs: seq<World>, cs: seq<Action>)
    requires Steps(plugin, vs, bs) && Steps(plugin, xs, cs) && vs[|bs|] == xs[0]
    requires Quiet(w, k, vs, bs) && Quiet(vs[|bs|], k, xs, cs)
    ensures Steps(plugin, vs[..|bs|] + xs, bs + cs) && Quiet(w, k, vs[..|bs|] + xs, bs + cs)
  {
    Joined(plugin, vs, bs, xs, cs);
    assert vs[|bs|] in vs;
    forall v | v in vs[..|bs|] + xs ensures Frozen(w, v) && OnlyNow(v, k) {
      assert v in vs || v in xs;
    }
  }

  /** The plugin is listed for deletion. */
  lemma Begun(w: World, plugin: Key, k: Key) returns (vs: seq<World>, bs: seq<Action>)
    requires Ready(w, plugin, k)
    ensures Steps(plugin, vs, bs) && vs[0] == w && Quiet(w, k, vs, bs) && |bs| == 2
    ensures bs[1].PassInit? && Lists(vs[1], plugin, bs[1]) && bs[1].matched == [k] && bs[1].since == |w.past|
    ensures var e := Entry(k, false, None, Some(w.now));
            var p := PluginObj(w.plugin.rv + 1, [e]);
            vs[2] == w.(plugin := p, pluginVersions := w.pluginVersions + {p}, pass := Cleaning(p, [], [e]))
  {
    var e := Entry(k, false, None, Some(w.now));
    var p := PluginObj(w.plugin.rv + 1, [e]);
    assert Requested([k], w.now) == [e];
    var v1 := w.(pass := Loaded(w.plugin, w.cache));
    var v2 := w.(plugin := p, pluginVersions := w.pluginVersions + {p}, pass := Cleaning(p, [], [e]));
    bs := [PassStart(w.plugin), PassInit([k], |w.past|, true)];
    vs := [w, v1, v2];
    assert StateAt(w, |w.past|) == w.servers;
    assert Apply(w, plugin, bs[0]) == v1 && Apply(v1, plugin, bs[1]) == v2;
  }

  /** The pass stops at a failed read. */
  lemma Stopped(w: World, plugin: Key, k: Key, e: Entry) returns (vs: seq<World>, bs: seq<Action>)
    requires w.pass == Cleaning(w.plugin, [], [e]) && w.plugin.progress == [e] && e == Entry(k, false, None, Some(w.now))
    requires k in Cached(w)
    ensures Steps(plugin, vs, bs) && vs[0] == w && Quiet(w, k, vs, bs) && |bs| == 3
    ensures vs[3] == w.(pass := Idle)
  {
    var p := w.plugin;
    assert [e][1..] == [] && [] + [e] == [e];
    var v1 := w.(pass := Cleaning(p, [e], []));
    var v2 := w.(pass := Marking(p, [e]));
    bs := [PassCheck(Found(Cached(w)[k])), PassCheck(Failed), PassMark(Failed)];
    vs := [w, v1, v2, w.(pass := Idle)];
    assert Apply(w, plugin, bs[0]) == v1 && Apply(v1, plugin, bs[1]) == v2 && Apply(v2, plugin, bs[2]) == w.(pass := Idle);
  }

  lemma Listed(w: World, plugin: Key, k: Key) returns (vs: seq<World>, bs: seq<Action>)
    requires Ready(w, plugin, k)
    ensures Steps(plugin, vs, bs) && vs[0] == w && Quiet(w, k, vs, bs) && |bs| == 5
    ensures bs[1].PassInit? && Lists(vs[1], plugin, bs[1]) && bs[1].matched == [k] && bs[1].since == |w.past|
    ensures var e := Entry(k, false, None, Some(w.now));
            var p := PluginObj(w.plugin.rv + 1, [e]);
            vs[5] == w.(plugin := p, pluginVersions := w.pluginVersions + {p})
  {
    hide Apply, Enabled, Lists, Quiet;
    var xs, cs;
    vs, bs := Begun(w, plugin, k);
    xs, cs := Stopped(vs[2], plugin, k, Entry(k, false, None, Some(w.now)));
    QuietJoined(plugin, w, k, vs, bs, xs, cs);
    vs, bs := vs[..2] + xs, bs + cs;
  }

  /** The worker reports its server done. */
  lemma Reported(w: World, plugin: Key, k: Key, e: Entry) returns (vs: seq<World>, bs: seq<Action>)
    requires w.finalizer && w.pass.Idle? && w.plugin in w.pluginVersions && w.plugin.progress == [e]
    requires e == Entry(k, false, None, Some(w.now))
    requires 0 in w.workers && ((w.workers[0].Picked? && w.workers[0].x.jar == "") || w.workers[0].Removed?) && w.workers[0].server == k
    ensures Steps(plugin, vs, bs) && vs[0] == w && Quiet(w, k, vs, bs) && |bs| == 2
    ensures var v := vs[2];
            v.finalizer && v.pass.Idle? && v.plugin in v.pluginVersions && v.plugin.progress == [Done(e, w.now)] && v.cache == w.cache && v.past == w.past
  {
    var p := w.plugin;
    var done := PluginObj(p.rv + 1, [Done(e, w.now)]);
    assert e in p.progress;
    assert MarkedDone([e], k, w.now) == [Done(e, w.now)];
    var v1 := w.(workers := w.workers[0 := Writing(PluginObj(p.rv, [Done(e, w.now)]))]);
    var v2 := w.(workers := v1.workers - {0}, plugin := done, pluginVersions := w.pluginVersions + {done});
    bs := [WorkerRead(0, p), WorkerWrite(0, true)];
    vs := [w, v1, v2];
    assert Apply(w, plugin, bs[0]) == v1 && Apply(v1, plugin, bs[1]) == v2;
  }

  lemma ListedAndReported(w: World, plugin: Key, k: Key) returns (vs: seq<World>, bs: seq<Action>)
    requires Ready(w, plugin, k)
    ensures Steps(plugin, vs, bs) && vs[0] == w && Quiet(w, k, vs, bs) && |bs| == 7
    ensures bs[1].PassInit? && Lists(vs[1], plugin, bs[1]) && bs[1].matched == [k] && bs[1].since == |w.past|
    ensures var v := vs[7];
            && v.finalizer && v.pass.Idle? && v.plugin in v.pluginVersions && v.cache <= |v.past|
            && |v.plugin.progress| == 1 && v.plugin.progress[0].server == k && v.plugin.progress[0].jarDeleted
  {
    hide Apply, Enabled, Lists, Quiet;
    var xs, cs;
    vs, bs := Listed(w, plugin, k);
    xs, cs := Reported(vs[5], plugin, k, Entry(k, false, None, Some(w.now)));
    QuietJoined(plugin, w, k, vs, bs, xs, cs);
    vs, bs := vs[..5] + xs, bs + cs;
  }

  /** The next pass finds its only entry done. */
  lemma FoundDone(w: World, plugin: Key, k: Key) returns (vs: seq<World>, bs: seq<Action>)
    requires w.finalizer && w.pass.Idle? && w.plugin in w.pluginVersions && w.cache <= |w.past|
    requires |w.plugin.progress| == 1 && w.plugin.progress[0].jarDeleted && OnlyNow(w, k)
    ensures Steps(plugin, vs, bs) && vs[0] == w && Quiet(w, k, vs, bs) && |bs| == 4
    ensures vs[4] == w.(pass := Marking(w.plugin, w.plugin.progress))
  {
    hide Apply, Enabled, Quiet;
    var xs, cs;
    vs, bs := LoadedAgain(w, plugin, k);
    xs, cs := CheckedAgain(vs[2], plugin, k);
    QuietJoined(plugin, w, k, vs, bs, xs, cs);
    vs, bs := vs[..2] + xs, bs + cs;
  }

  lemma LoadedAgain(w: World, plugin: Key, k: Key) returns (vs: seq<World>, bs: seq<Action>)
    requires w.pass.Idle? && w.plugin in w.pluginVersions && w.plugin.progress != [] && w.cache <= |w.past| && OnlyNow(w, k)
    ensures Steps(plugin, vs, bs) && vs[0] == w && Quiet(w, k, vs, bs) && |bs| == 2
    ensures vs[2] == w.(pass := Cleaning(w.plugin, [], w.plugin.progress))
  {
    var p := w.plugin;
    var v1 := w.(pass := Loaded(p, w.cache));
    bs := [PassStart(p), PassInit([], w.cache, true)];
    vs := [w, v1, w.(pass := Cleaning(p, [], p.progress))];
    assert Apply(w, plugin, bs[0]) == v1 && Apply(v1, plugin, bs[1]) == vs[2];
  }

  lemma CheckedAgain(w: World, plugin: Key, k: Key) returns (vs: seq<World>, bs: seq<Action>)
    requires w.pass == Cleaning(w.plugin, [], w.plugin.progress) && OnlyNow(w, k)
    requires |w.plugin.progress| == 1 && w.plugin.progress[0].jarDeleted
    ensures Steps(plugin, vs, bs) && vs[0] == w && Quiet(w, k, vs, bs) && |bs| == 2
    ensures vs[2] == w.(pass := Marking(w.plugin, w.plugin.progress))
  {
    var p := w.plugin;
    var e := p.progress[0];
    assert p.progress == [e] && e in p.progress && [e][1..] == [] && [] + [e] == [e];
    var v1 := w.(pass := Cleaning(p, [e], []));
    bs := [PassCheck(Failed), PassCheck(Failed)];
    vs := [w, v1, w.(pass := Marking(p, [e]))];
    assert Apply(w, plugin, bs[0]) == v1 && Apply(v1, plugin, bs[1]) == vs[2];
  }

  lemma ForcedThrough(w: World, plugin: Key, k: Key) returns (vs: seq<World>, bs: seq<Action>)
    requires w.pass == Marking(w.plugin, w.plugin.progress)
    requires |w.plugin.progress| == 1 && w.plugin.progress[0].jarDeleted && OnlyNow(w, k)
    ensures Steps(plugin, vs, bs) && vs[0] == w && Quiet(w, k, vs, bs) && |bs| == 3
    ensures vs[3] == w.(pass := FinishWrite(w.plugin))
  {
    var p := w.plugin;
    var e := p.progress[0];
    assert p.progress == [e] && e in p.progress && [e][1..] == [];
    var v1 := w.(pass := Marking(p, []));
    var v2 := w.(pass := Forcing(p));
    bs := [PassMark(Failed), PassMark(Failed), PassForce];
    vs := [w, v1, v2, w.(pass := FinishWrite(p))];
    assert ForceCompleted([e], w.now) == [e];
    assert Apply(w, plugin, bs[0]) == v1 && Apply(v1, plugin, bs[1]) == v2 && Apply(v2, plugin, bs[2]) == vs[3];
  }

  /** It goes on to remove the finalizer. */
  lemma Finished(w: World, plugin: Key, k: Key) returns (vs: seq<World>, bs: seq<Action>)
    requires w.finalizer && w.pass == FinishWrite(w.plugin)
    requires |w.plugin.progress| == 1 && w.plugin.progress[0].jarDeleted && OnlyNow(w, k)
    ensures Steps(plugin, vs, bs) && vs[0] == w && Quiet(w, k, vs, bs) && |bs| == 2 && !vs[2].finalizer
  {
    var p := w.plugin;
    assert p.progress == [p.progress[0]] && p.progress[0] in p.progress;
    var q := PluginObj(p.rv + 1, p.progress);
    var v1 := w.(plugin := q, pluginVersions := w.pluginVersions + {q}, pass := Removing(q));
    var v2 := v1.(finalizer := false, pass := Idle);
    bs := [PassWrite(true), PassWrite(true)];
    vs := [w, v1, v2];
    assert Apply(w, plugin, bs[0]) == v1 && Apply(v1, plugin, bs[1]) == v2;
  }

  lemma FinalizerRemoved(w: World, plugin: Key, k: Key) returns (vs: seq<World>, bs: seq<Action>)
    requires w.finalizer && w.pass.Idle? && w.plugin in w.pluginVersions && w.cache <= |w.past|
    requires |w.plugin.progress| == 1 && w.plugin.progress[0].server == k && w.plugin.progress[0].jarDeleted
    requires OnlyNow(w, k)
    ensures Steps(plugin, vs, bs) && vs[0] == w && Quiet(w, k, vs, bs) && !vs[|bs|].finalizer
  {
    hide Apply, Enabled, Quiet;
    var xs, cs;
    vs, bs := FoundDone(w, plugin, k);
    xs, cs := ForcedThrough(vs[4], plugin, k);
    QuietJoined(plugin, w, k, vs, bs, xs, cs);
    vs, bs := vs[..4] + xs, bs + cs;
    xs, cs := Finished(vs[7], plugin, k);
    QuietJoined(plugin, w, k, vs, bs, xs, cs);
    vs, bs := vs[..7] + xs, bs + cs;
  }

  /** In a run that is quiet from its listing on, no reason is as new as the listing. */
  lemma NothingShownSince(plugin: Key, ws: seq<World>, acts: seq<Action>, m: nat, k: Key, r: Reason)
    requires |ws| == |acts| + 1 && m < |acts|
    requires ws[m].cache == |ws[m].past| && k in ws[m].servers && ws[m].servers[k].installed == Reinstalled(plugin)
    requires forall i | m <= i < |ws| :: Frozen(ws[m], ws[i]) && OnlyNow(ws[i], k)
    requires forall i | 0 <= i < |acts| && acts[i].WorkerRemove? :: |ws[i].past| < |ws[m].past|
    ensures !ShownSince(plugin, ws, acts, m + 1, |acts|, k, |ws[m].past|, r)
  {
    var since := |ws[m].past|;
    var last := ws[|acts|];
    assert Frozen(ws[m], last);
    assert !LacksJar(Reinstalled(plugin), plugin) by {
      assert Installed(plugin, NEW_JAR, false) in Reinstalled(plugin);
    }
    match r
    case ServerGone =>
    case NoJarRecorded =>
    case TimedOut =>
      forall i | m + 1 < i <= |acts| ensures !OverdueIn(ws[i], k) {
        assert OnlyNow(ws[i], k);
      }
    case JarRemoved(jar) =>
  }

  /**
    The condition of `FirstDeletionSafety` cannot be dropped: from every initial world in which the
    cache shows a leftover request on server k there is a run that lists k and removes the finalizer
    although no reason is as new as the listing: the server is there and its JAR recorded from the
    listing on, nothing waited, and nothing was removed since.
   */
  lemma LeftoverRequestCounts(w: World, plugin: Key, k: Key) returns (ws: seq<World>, acts: seq<Action>, i0: nat)
    requires Initial(w) && k in Cached(w) && CarriesRequest(Cached(w)[k].installed, plugin)
    ensures IsRun(plugin, ws, acts) && ws[0] == w
    ensures i0 < |acts| && Lists(ws[i0], plugin, acts[i0]) && k in acts[i0].matched
    ensures !ws[|acts|].finalizer
    ensures forall r :: !ShownSince(plugin, ws, acts, i0, |acts|, k, acts[i0].since, r)
  {
    hide Apply, Enabled, Lists;
    var us, bs := LeftoverTaken(w, plugin, k);
    var mid := us[|bs|];
    var m := |bs|;
    var vs, cs := ListedAndReported(mid, plugin, k);
    assert vs[7] in vs && Frozen(mid, vs[7]) && OnlyNow(vs[7], k);
    var xs, ds := FinalizerRemoved(vs[7], plugin, k);
    Joined(plugin, us, bs, vs, cs);
    Joined(plugin, us[..m] + vs, bs + cs, xs, ds);
    ws, acts := (us[..m] + vs)[..m + 7] + xs, bs + cs + ds;
    i0 := m + 1;
    assert ws[i0] == vs[1] && acts[i0] == cs[1];
    assert ws[m] == mid;
    forall i | m <= i < |ws| ensures Frozen(mid, ws[i]) && OnlyNow(ws[i], k) {
      if i < m + 7 {
        assert ws[i] == vs[i - m] && vs[i - m] in vs;
      } else {
        assert ws[i] == xs[i - m - 7] && xs[i - m - 7] in xs;
      }
    }
    forall i | m <= i < |acts| ensures !acts[i].WorkerRemove? {
      assert if i < m + 7 then acts[i] in cs else acts[i] in ds by {
        assert acts[i] == if i < m + 7 then cs[i - m] else ds[i - m - 7];
      }
    }
    forall i | 0 <= i < |acts| && acts[i].WorkerRemove? ensures |ws[i].past| < |mid.past| {
      assert ws[i] == us[i] && acts[i] == bs[i];
    }
    forall r ensures !ShownSince(plugin, ws, acts, i0, |acts|, k, acts[i0].since, r) {
      NothingShownSince(plugin, ws, acts, m, k, r);
    }
  }
}
