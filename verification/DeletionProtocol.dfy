/**
  The deletion of one plugin as a protocol between the Plugin controller, any number of Update
  workers and an environment that may change servers, disks and the clock at any time.

  Every step is one call to the API server or one local computation.  Reads go through a cache that
  may lag behind by any number of changes; writes carry the resource version that was read and fail
  when the object has changed since.  All other writers of a server's status, the PaperMCServer
  controller among them, are part of the environment.
 */
module DeletionProtocol {
  import opened Wrappers
  import opened Api
  import opened DeletionProgress

  datatype PluginObj = PluginObj(rv: nat, progress: seq<Entry>)

  datatype ServerObj = ServerObj(rv: nat, installed: seq<Installed>)

  /** JAR names in a server's plugins folder and in its update folder. */
  datatype Disk = Disk(plugins: set<string>, update: set<string>)

  /** Where the Plugin controller's pass is; `p` is its own copy of the plugin, `from` the cache when it began. */
  datatype Pass =
    | Idle
    | Loaded(p: PluginObj, from: nat)
    | Cleaning(p: PluginObj, kept: seq<Entry>, rest: seq<Entry>)
    | CleanWrite(p: PluginObj)
    | Marking(p: PluginObj, rest: seq<Entry>)
    | MarkWrite(p: PluginObj, rest: seq<Entry>)
    | PendWrite(p: PluginObj, server: Key, s: ServerObj, rest: seq<Entry>)
    | Forcing(p: PluginObj)
    | FinishWrite(p: PluginObj)
    | Removing(p: PluginObj)

  /** An Update worker that found the plugin pending in its copy `s` of a server. */
  datatype Worker =
    | Picked(server: Key, s: ServerObj, x: Installed)
    | Removed(server: Key)
    | Writing(p: PluginObj)

  /**
    `servers` is what the API server stores now and `past` every earlier state of it; state number h
    is `StateAt(w, h)`.  Both controllers read servers from one cache, which has seen the states up to
    number `cache` and never goes back.
   */
  datatype World = World(
    now: int,
    nextRv: nat,
    finalizer: bool,
    plugin: PluginObj,
    past: seq<map<Key, ServerObj>>,
    servers: map<Key, ServerObj>,
    cache: nat,
    disks: map<Key, Disk>,
    pass: Pass,
    workers: map<nat, Worker>,
    pluginVersions: set<PluginObj>)

  function StateAt(w: World, h: nat): map<Key, ServerObj> {
    if h < |w.past| then w.past[h] else w.servers
  }

  function Cached(w: World): map<Key, ServerObj> {
    StateAt(w, w.cache)
  }

  /** The answer to a read: a failure, a missing object, or a version of the object. */
  datatype Read = Failed | Missing | Found(s: ServerObj)

  datatype Action =
    | Tick(seconds: nat)
    | CacheMove(to: nat)
    | SetServer(server: Key, installed: Option<seq<Installed>>)
    | SetDisk(server: Key, disk: Disk)
    | PassStart(p: PluginObj)
    | PassInit(matched: seq<Key>, since: nat, ok: bool)
    | PassCheck(read: Read)
    | PassMark(read: Read)
    | PassForce
    | PassWrite(ok: bool)
    | WorkerStart(id: nat, server: Key, s: ServerObj, x: Installed)
    | WorkerRemove(id: nat, ok: bool)
    | WorkerRead(id: nat, p: PluginObj)
    | WorkerWrite(id: nat, ok: bool)
    | WorkerStop(id: nat)

  predicate Readable(w: World, k: Key, read: Read) {
    match read
    case Failed => true
    case Missing => k !in Cached(w)
    case Found(s) => k in Cached(w) && Cached(w)[k] == s
  }

  predicate Writes(pass: Pass) {
    pass.CleanWrite? || pass.MarkWrite? || pass.PendWrite? || pass.FinishWrite? || pass.Removing?
  }

  predicate Enabled(w: World, plugin: Key, a: Action) {
    match a
    case Tick(_) => true
    case CacheMove(to) => w.cache <= to <= |w.past|
    case SetServer(_, _) => true
    case SetDisk(_, _) => true
    case PassStart(p) => w.pass.Idle? && p in w.pluginVersions
    case PassInit(matched, since, _) =>
      // the servers are listed some time after the pass began, each of them once
      && w.pass.Loaded? && w.pass.from <= since <= w.cache
      && (forall k | k in matched :: k in StateAt(w, since))
      && (forall i, j | 0 <= i < j < |matched| :: matched[i] != matched[j])
    case PassCheck(read) => w.pass.Cleaning? && (w.pass.rest != [] ==> Readable(w, w.pass.rest[0].server, read))
    case PassMark(read) => w.pass.Marking? && (w.pass.rest != [] ==> Readable(w, w.pass.rest[0].server, read))
    case PassForce => w.pass.Forcing?
    case PassWrite(_) => Writes(w.pass)
    case WorkerStart(id, k, s, x) =>
      id !in w.workers && k in Cached(w) && Cached(w)[k] == s && x in s.installed && x.plugin == plugin && x.pending
    case WorkerRemove(id, _) => id in w.workers && w.workers[id].Picked? && w.workers[id].x.jar != ""
    case WorkerRead(id, p) =>
      && id in w.workers && p in w.pluginVersions
      && ((w.workers[id].Picked? && w.workers[id].x.jar == "") || w.workers[id].Removed?)
    case WorkerWrite(id, _) => id in w.workers && w.workers[id].Writing?
    case WorkerStop(id) => id in w.workers
  }

  /** A write of the plugin succeeds on an unchanged object only. */
  predicate Accepted(w: World, p: PluginObj, ok: bool) {
    ok && w.finalizer && p.rv == w.plugin.rv
  }

  function StorePlugin(w: World, progress: seq<Entry>): World {
    var p := PluginObj(w.plugin.rv + 1, progress);
    w.(plugin := p, pluginVersions := w.pluginVersions + {p})
  }

  function Replace(w: World, servers: map<Key, ServerObj>): World {
    w.(past := w.past + [w.servers], servers := servers)
  }

  function StoreServer(w: World, k: Key, installed: Option<seq<Installed>>): World {
    // resource versions are never reused, not even for a new object of the same name
    if installed.None? then Replace(w, w.servers - {k})
    else Replace(w, w.servers[k := ServerObj(w.nextRv, installed.value)]).(nextRv := w.nextRv + 1)
  }

  function Check(w: World, read: Read): Pass
    requires w.pass.Cleaning?
  {
    var Cleaning(p, kept, rest) := w.pass;
    if rest == [] then (if |kept| != |p.progress| then CleanWrite(p.(progress := kept)) else Marking(p, p.progress))
    else if !rest[0].jarDeleted && read.Missing? then Cleaning(p, kept, rest[1..])
    else Cleaning(p, kept + [rest[0]], rest[1..])
  }

  function Mark(w: World, plugin: Key, read: Read): Pass
    requires w.pass.Marking?
  {
    var Marking(p, rest) := w.pass;
    if rest == [] then Forcing(p)
    else if rest[0].jarDeleted then Marking(p, rest[1..])
    else match read
         case Failed => Idle
         case Missing => MarkWrite(p.(progress := MarkedDone(p.progress, rest[0].server, w.now)), rest[1..])
         case Found(s) =>
           if NoJar(s.installed, plugin) then
             MarkWrite(p.(progress := MarkedDone(p.progress, rest[0].server, w.now)), rest[1..])
           else if MarkedPending(s.installed, plugin) != s.installed then
             PendWrite(p, rest[0].server, s.(installed := MarkedPending(s.installed, plugin)), rest[1..])
           else Marking(p, rest[1..])
  }

  function PluginWrite(w: World): World
    requires Writes(w.pass) && !w.pass.PendWrite? && !w.pass.Removing?
  {
    var w' := StorePlugin(w, w.pass.p.progress);
    var p := w'.plugin;
    match w.pass
    case CleanWrite(_) => w'.(pass := Marking(p, p.progress))
    case MarkWrite(_, rest) => w'.(pass := Marking(p, rest))
    case FinishWrite(_) => w'.(pass := if AllDone(p.progress) then Removing(p) else Idle)
  }

  function Apply(w: World, plugin: Key, a: Action): World
    requires Enabled(w, plugin, a)
  {
    match a
    case Tick(seconds) => w.(now := w.now + seconds)
    case CacheMove(to) => w.(cache := to)
    case SetServer(k, installed) => StoreServer(w, k, installed)
    case SetDisk(k, disk) => w.(disks := w.disks[k := disk])
    case PassStart(p) => w.(pass := Loaded(p, w.cache))
    case PassInit(matched, _, ok) =>
      var p := w.pass.p;
      if p.progress != [] then w.(pass := Cleaning(p, [], p.progress))
      else if !Accepted(w, p, ok) then w.(pass := Idle)
      else
        var w' := StorePlugin(w, Requested(matched, w.now));
        w'.(pass := Cleaning(w'.plugin, [], w'.plugin.progress))
    case PassCheck(read) => w.(pass := Check(w, read))
    case PassMark(read) => w.(pass := Mark(w, plugin, read))
    case PassForce => w.(pass := FinishWrite(w.pass.p.(progress := ForceCompleted(w.pass.p.progress, w.now))))
    case PassWrite(ok) =>
      if w.pass.PendWrite? then
        var PendWrite(p, k, s, rest) := w.pass;
        if ok && k in w.servers && w.servers[k].rv == s.rv
        then StoreServer(w, k, Some(s.installed)).(pass := Marking(p, rest))
        else w.(pass := Idle)
      else if !Accepted(w, w.pass.p, ok) then w.(pass := Idle)
      else if w.pass.Removing? then w.(finalizer := false, pass := Idle)
      else PluginWrite(w)
    case WorkerStart(id, k, s, x) => w.(workers := w.workers[id := Picked(k, s, x)])
    case WorkerRemove(id, ok) =>
      var Picked(k, _, x) := w.workers[id];
      if !ok then w.(workers := w.workers - {id})
      else
        var d := if k in w.disks then w.disks[k] else Disk({}, {});
        w.(disks := w.disks[k := Disk(d.plugins - {x.jar}, d.update - {x.jar})], workers := w.workers[id := Removed(k)])
    case WorkerRead(id, p) =>
      var k := w.workers[id].server;
      if exists e | e in p.progress :: e.server == k
      then w.(workers := w.workers[id := Writing(p.(progress := MarkedDone(p.progress, k, w.now)))])
      else w.(workers := w.workers - {id})
    case WorkerWrite(id, ok) =>
      var p := w.workers[id].p;
      var w' := w.(workers := w.workers - {id});
      if Accepted(w, p, ok) then StorePlugin(w', p.progress) else w'
    case WorkerStop(id) => w.(workers := w.workers - {id})
  }

  ghost predicate Initial(w: World) {
    && w.finalizer && w.plugin.progress == [] && w.pass.Idle? && w.workers == map[]
    && w.pluginVersions == {w.plugin}
    && w.cache <= |w.past|
  }

  ghost predicate IsRun(plugin: Key, ws: seq<World>, acts: seq<Action>) {
    && |ws| == |acts| + 1
    && Initial(ws[0])
    && forall i: nat | i < |acts| :: IsStep(plugin, ws, acts, i)
  }

  ghost predicate IsStep(plugin: Key, ws: seq<World>, acts: seq<Action>, i: nat)
    requires |ws| == |acts| + 1 && i < |acts|
  {
    Enabled(ws[i], plugin, acts[i]) && ws[i + 1] == Apply(ws[i], plugin, acts[i])
  }

  /** The step stores a new list. */
  predicate Lists(w: World, plugin: Key, a: Action) {
    Enabled(w, plugin, a) && a.PassInit? && w.pass.p.progress == [] && Accepted(w, w.pass.p, a.ok)
  }

  // ---------------------------------------------------------------- what an observer of the run can see

  datatype Reason = ServerGone | NoJarRecorded | TimedOut | JarRemoved(jar: string)

  /** The status has no entry for the plugin, or one without a JAR name. */
  predicate LacksJar(installed: seq<Installed>, plugin: Key) {
    || (forall x | x in installed :: x.plugin != plugin)
    || (exists x | x in installed :: x.plugin == plugin && x.jar == "")
  }

  /** The status carries the request to delete the plugin. */
  predicate CarriesRequest(installed: seq<Installed>, plugin: Key) {
    exists x | x in installed :: x.plugin == plugin && x.pending
  }

  /** State h of the store is the one the listing read or a later one. */
  ghost predicate GoneAt(w: World, k: Key, since: nat, h: nat) {
    since <= h <= |w.past| && k !in StateAt(w, h)
  }

  /** A state before the listing counts only if the request of an earlier deletion was on the server already. */
  ghost predicate NoJarAt(w: World, plugin: Key, k: Key, since: nat, h: nat) {
    && h <= |w.past| && k in StateAt(w, h) && LacksJar(StateAt(w, h)[k].installed, plugin)
    && (since <= h || CarriesRequest(StateAt(w, h)[k].installed, plugin))
  }

  ghost predicate OverdueIn(w: World, k: Key) {
    exists e :: e in w.plugin.progress && e.server == k && Overdue(e, w.now)
  }

  /**
    A worker of server k that found the request in state h of the store removed the JAR recorded there
    for the plugin; it is in neither folder of the server afterwards.
   */
  ghost predicate RemovesJar(w: World, plugin: Key, a: Action, w': World, k: Key, jar: string, h: nat) {
    && a.WorkerRemove? && a.ok && jar != ""
    && a.id in w.workers && w.workers[a.id].Picked? && w.workers[a.id].server == k && w.workers[a.id].x.jar == jar
    && h <= |w.past| && k in StateAt(w, h) && StateAt(w, h)[k] == w.workers[a.id].s
    && w.workers[a.id].x in StateAt(w, h)[k].installed && w.workers[a.id].x.plugin == plugin && w.workers[a.id].x.pending
    && k in w'.disks && jar !in w'.disks[k].plugins && jar !in w'.disks[k].update
  }

  ghost predicate RemovesJarAt(plugin: Key, ws: seq<World>, acts: seq<Action>, i: nat, k: Key, jar: string, h: nat)
    requires |ws| == |acts| + 1 && i < |acts|
  {
    RemovesJar(ws[i], plugin, acts[i], ws[i + 1], k, jar, h)
  }

  /** By state n the run has shown reason r for server k, which step i0 listed from state `since` of the store. */
  ghost predicate Shown(plugin: Key, ws: seq<World>, acts: seq<Action>, i0: nat, n: nat, k: Key, since: nat, r: Reason)
    requires |ws| == |acts| + 1 && n < |ws|
  {
    match r
    case ServerGone => exists h: nat :: GoneAt(ws[n], k, since, h)
    case NoJarRecorded => exists h: nat :: NoJarAt(ws[n], plugin, k, since, h)
    case TimedOut => exists i | i0 < i <= n :: OverdueIn(ws[i], k)
    case JarRemoved(jar) => exists i: nat, h: nat | i < n :: RemovesJarAt(plugin, ws, acts, i, k, jar, h)
  }

  ghost predicate Justified(plugin: Key, ws: seq<World>, acts: seq<Action>, i0: nat, n: nat, k: Key, since: nat)
    requires |ws| == |acts| + 1 && n < |ws|
  {
    exists r :: Shown(plugin, ws, acts, i0, n, k, since, r)
  }

  // ---------------------------------------------------------------- the invariant

  /** One listing of one server: when it was listed, and whether its removal is justified by now. */
  datatype Target = Target(k: Key, since: nat, listed: bool, justified: bool)

  ghost predicate Dated(progress: seq<Entry>) {
    forall e | e in progress :: e.requestedAt.Some?
  }

  /** The server is justified or still open on this list, and when it is done there it is justified. */
  ghost predicate Good(progress: seq<Entry>, t: Target) {
    t.listed && !t.justified ==>
      && (exists e :: e in progress && e.server == t.k && !e.jarDeleted)
      && (forall e | e in progress && e.server == t.k :: !e.jarDeleted)
  }

  /** A copy that could still be written back is a sound advance on the stored list. */
  ghost predicate SoundCopy(w: World, p: PluginObj, t: Target) {
    && p.rv <= w.plugin.rv
    && (p.rv == w.plugin.rv ==> Advances(w.plugin.progress, p.progress) && Dated(p.progress) && Good(p.progress, t))
  }

  ghost predicate VersionsSound(w: World) {
    && (forall p | p in w.pluginVersions :: p.rv <= w.plugin.rv && (p.rv == w.plugin.rv ==> p == w.plugin))
    && w.plugin in w.pluginVersions
  }

  ghost predicate PassSound(w: World, t: Target) {
    match w.pass
    case Idle => true
    case Loaded(p, _) => p in w.pluginVersions
    case Cleaning(p, kept, rest) => SoundCopy(w, p, t) && SoundCopy(w, PluginObj(p.rv, kept + rest), t)
    case Removing(p) => SoundCopy(w, p, t) && AllDone(p.progress)
    case _ => SoundCopy(w, w.pass.p, t)
  }

  /** Some state of the store had this version of the server. */
  ghost predicate WasStored(w: World, k: Key, s: ServerObj) {
    exists h: nat :: h <= |w.past| && k in StateAt(w, h) && StateAt(w, h)[k] == s
  }

  ghost predicate WorkerSound(w: World, plugin: Key, u: Worker, t: Target) {
    match u
    case Picked(k, s, x) => WasStored(w, k, s) && x in s.installed && x.plugin == plugin && x.pending
    case Removed(k) => k == t.k ==> t.justified
    case Writing(p) => SoundCopy(w, p, t)
  }

  ghost predicate Inv(w: World, plugin: Key, t: Target) {
    && VersionsSound(w)
    && w.cache <= |w.past| && (t.listed ==> t.since <= w.cache)
    && Dated(w.plugin.progress) && Good(w.plugin.progress, t)
    && (t.listed && !w.finalizer ==> t.justified)
    && PassSound(w, t)
    && (forall id | id in w.workers :: WorkerSound(w, plugin, w.workers[id], t))
  }

  lemma {:induction false} AdvancesReflexive(a: seq<Entry>)
    ensures Advances(a, a)
  {
    PointwiseAdvances(a, a);
  }

  lemma {:induction false} DropAdvances(kept: seq<Entry>, e: Entry, rest: seq<Entry>)
    requires !e.jarDeleted
    ensures Advances(kept + [e] + rest, kept + rest)
  {
    var a := kept + [e] + rest;
    if kept == [] {
      assert a[1..] == rest && kept + rest == rest;
      AdvancesReflexive(rest);
    } else {
      DropAdvances(kept[1..], e, rest);
      assert a[1..] == kept[1..] + [e] + rest;
      assert (kept + rest)[1..] == kept[1..] + rest;
    }
  }

  /** Marking a server done keeps a copy sound, if it is justified or not the one in question. */
  lemma MarkedDoneSound(w: World, p: PluginObj, k: Key, t: Target)
    requires SoundCopy(w, p, t) && (t.listed && k == t.k ==> t.justified)
    ensures SoundCopy(w, p.(progress := MarkedDone(p.progress, k, w.now)), t)
  {
    MarkedDoneEntries(p.progress, k, w.now);
    if p.rv == w.plugin.rv {
      var q := MarkedDone(p.progress, k, w.now);
      AdvancesTransitive(w.plugin.progress, p.progress, q);
      forall f | f in q ensures f.requestedAt.Some? && (f in p.progress || f.server == k) {
        var i :| 0 <= i < |q| && q[i] == f;
        assert p.progress[i] in p.progress;
      }
      if t.listed && !t.justified {
        OpenEntryStays(p.progress, q, t.k);
      }
    }
  }

  lemma OpenEntryStays(a: seq<Entry>, b: seq<Entry>, k: Key)
    requires |a| == |b| && forall i | 0 <= i < |a| && a[i].server == k :: b[i] == a[i]
    requires exists e :: e in a && e.server == k && !e.jarDeleted
    ensures exists e :: e in b && e.server == k && !e.jarDeleted
  {
    var e :| e in a && e.server == k && !e.jarDeleted;
    var i :| 0 <= i < |a| && a[i] == e;
    assert b[i] in b;
  }

  /** Forced completion keeps a copy sound, because the stored entries it completes are overdue. */
  lemma ForceSound(w: World, p: PluginObj, t: Target)
    requires SoundCopy(w, p, t) && (t.listed && OverdueIn(w, t.k) ==> t.justified)
    ensures SoundCopy(w, p.(progress := ForceCompleted(p.progress, w.now)), t)
  {
    if p.rv == w.plugin.rv {
      var q := ForceCompleted(p.progress, w.now);
      ForceCompletedAdvances(p.progress, w.now);
      AdvancesTransitive(w.plugin.progress, p.progress, q);
      AdvancesMeaning(w.plugin.progress, p.progress);
      forall i | 0 <= i < |q| ensures q[i] == p.progress[i] || OverdueIn(w, q[i].server) {
        assert p.progress[i] in p.progress;
        var e :| e in w.plugin.progress && Follows(e, p.progress[i]);
        if Overdue(p.progress[i], w.now) {
          assert Overdue(e, w.now);
        }
      }
      forall f | f in q ensures f.requestedAt.Some? && (f in p.progress || OverdueIn(w, f.server)) {
        var i :| 0 <= i < |q| && q[i] == f;
        assert p.progress[i] in p.progress;
      }
      if t.listed && !t.justified {
        OpenEntryStays(p.progress, q, t.k);
      }
    }
  }

  /** Dropping an entry during cleanup keeps the copy sound. */
  lemma DropSound(w: World, rv: nat, kept: seq<Entry>, rest: seq<Entry>, t: Target)
    requires rest != [] && !rest[0].jarDeleted && (t.listed && rest[0].server == t.k ==> t.justified)
    requires SoundCopy(w, PluginObj(rv, kept + rest), t)
    ensures SoundCopy(w, PluginObj(rv, kept + rest[1..]), t)
  {
    if rv == w.plugin.rv {
      assert kept + rest == kept + [rest[0]] + rest[1..];
      DropAdvances(kept, rest[0], rest[1..]);
      AdvancesTransitive(w.plugin.progress, kept + rest, kept + rest[1..]);
      assert forall e | e in kept + rest[1..] :: e in kept + rest;
      if t.listed && !t.justified {
        var e :| e in kept + rest && e.server == t.k && !e.jarDeleted;
        assert e in kept + rest[1..];
      }
    }
  }

  /** What one step does to the target: it is listed by the step that lists it, and justified by what is shown. */
  ghost predicate Learns(w: World, plugin: Key, a: Action, w': World, t: Target, t': Target) {
    && t' == t.(listed := t'.listed, justified := t'.justified)
    && (t.justified ==> t'.justified) && (t.listed ==> t'.listed)
    && (t'.listed && !t.listed ==> Lists(w, plugin, a) && t.k in a.matched && a.since == t.since)
    && Knows(w, plugin, t)
    && (forall jar, h: nat | RemovesJar(w, plugin, a, w', t.k, jar, h) :: t'.justified)
  }

  ghost predicate Knows(w: World, plugin: Key, t: Target) {
    && (forall h: nat | GoneAt(w, t.k, t.since, h) :: t.justified)
    && (forall h: nat | NoJarAt(w, plugin, t.k, t.since, h) :: t.justified)
    && (t.listed && OverdueIn(w, t.k) ==> t.justified)
  }

  lemma InvGrows(w: World, plugin: Key, t: Target, t': Target)
    requires Inv(w, plugin, t) && (t.justified ==> t'.justified) && t' == t.(justified := t'.justified)
    ensures Inv(w, plugin, t')
  {
    forall p | SoundCopy(w, p, t) ensures SoundCopy(w, p, t') {
    }
    forall id | id in w.workers ensures WorkerSound(w, plugin, w.workers[id], t') {
      assert WorkerSound(w, plugin, w.workers[id], t);
    }
  }

  lemma WasStoredStays(w: World, w': World, k: Key, s: ServerObj)
    requires WasStored(w, k, s) && Extends(w, w')
    ensures WasStored(w', k, s)
  {
    var h: nat :| h <= |w.past| && k in StateAt(w, h) && StateAt(w, h)[k] == s;
    assert StateAt(w', h) == StateAt(w, h);
  }

  /** The history of the store only grows. */
  ghost predicate Extends(w: World, w': World) {
    |w.past| <= |w'.past| && forall h: nat | h <= |w.past| :: StateAt(w', h) == StateAt(w, h)
  }

  lemma StepExtends(w: World, plugin: Key, a: Action)
    requires Enabled(w, plugin, a)
    ensures Extends(w, Apply(w, plugin, a)) && Apply(w, plugin, a).cache >= w.cache
    ensures w.cache <= |w.past| ==> Apply(w, plugin, a).cache <= |Apply(w, plugin, a).past|
  {
    var w' := Apply(w, plugin, a);
    if a.SetServer? {
      StoreServerExtends(w, a.server, a.installed);
    } else if a.PassWrite? && w.pass.PendWrite? {
      StoreServerExtends(w, w.pass.server, Some(w.pass.s.installed));
    } else {
      assert w'.past == w.past && w'.servers == w.servers;
    }
  }

  lemma StoreServerExtends(w: World, k: Key, installed: Option<seq<Installed>>)
    ensures Extends(w, StoreServer(w, k, installed))
  {
  }

  lemma ExtendsTransitive(a: World, b: World, c: World)
    requires Extends(a, b) && Extends(b, c)
    ensures Extends(a, c)
  {
    forall h: nat | h <= |a.past| ensures StateAt(c, h) == StateAt(a, h) {
      assert StateAt(b, h) == StateAt(a, h);
    }
  }

  /** Only the plugin object decides whether a copy is sound. */
  lemma WorkersStaySound(w: World, w': World, plugin: Key, t: Target)
    requires Inv(w, plugin, t) && Extends(w, w')
    requires w'.plugin == w.plugin || w'.plugin.rv > w.plugin.rv
    ensures forall id | id in w.workers :: WorkerSound(w', plugin, w.workers[id], t)
  {
    forall id | id in w.workers ensures WorkerSound(w', plugin, w.workers[id], t) {
      assert WorkerSound(w, plugin, w.workers[id], t);
      if w.workers[id].Picked? {
        WasStoredStays(w, w', w.workers[id].server, w.workers[id].s);
      }
    }
  }

  /** A step that leaves the plugin object alone keeps the invariant if the new pass and workers are sound. */
  lemma SamePlugin(w: World, w': World, plugin: Key, t: Target)
    requires Inv(w, plugin, t) && Extends(w, w')
    requires w'.plugin == w.plugin && w'.pluginVersions == w.pluginVersions && w'.finalizer == w.finalizer
    requires w.cache <= w'.cache <= |w'.past|
    requires w'.pass == w.pass || PassSound(w', t)
    requires forall id | id in w'.workers && (id !in w.workers || w'.workers[id] != w.workers[id]) ::
               WorkerSound(w', plugin, w'.workers[id], t)
    ensures Inv(w', plugin, t)
  {
    hide Good, Advances, WasStored, Extends;
    WorkersStaySound(w, w', plugin, t);
  }

  // ---------------------------------------------------------------- the steps of the pass

  lemma CheckSound(w: World, plugin: Key, read: Read, t: Target)
    requires Inv(w, plugin, t) && Enabled(w, plugin, PassCheck(read)) && Knows(w, plugin, t)
    ensures PassSound(w.(pass := Check(w, read)), t)
  {
    hide Good, Advances;
    var Cleaning(p, kept, rest) := w.pass;
    if rest == [] {
      assert kept + rest == kept;
    } else if !rest[0].jarDeleted && read.Missing? {
      if t.listed && rest[0].server == t.k {
        assert GoneAt(w, t.k, t.since, w.cache);
      }
      DropSound(w, p.rv, kept, rest, t);
    } else {
      assert (kept + [rest[0]]) + rest[1..] == kept + rest;
    }
  }

  lemma MarkSound(w: World, plugin: Key, read: Read, t: Target)
    requires Inv(w, plugin, t) && Enabled(w, plugin, PassMark(read)) && Knows(w, plugin, t)
    ensures PassSound(w.(pass := Mark(w, plugin, read)), t)
  {
    hide Good, Advances;
    var Marking(p, rest) := w.pass;
    if rest != [] && !rest[0].jarDeleted && (read.Missing? || (read.Found? && NoJar(read.s.installed, plugin))) {
      var k := rest[0].server;
      if t.listed && k == t.k {
        if read.Missing? {
          assert GoneAt(w, k, t.since, w.cache);
        } else {
          NoJarLacks(read.s.installed, plugin);
          assert NoJarAt(w, plugin, k, t.since, w.cache);
        }
      }
      MarkedDoneSound(w, p, k, t);
    }
  }

  lemma {:induction false} NoJarLacks(installed: seq<Installed>, plugin: Key)
    requires NoJar(installed, plugin)
    ensures LacksJar(installed, plugin)
  {
    if installed != [] {
      assert installed == [installed[0]] + installed[1..];
      if installed[0].plugin != plugin {
        NoJarLacks(installed[1..], plugin);
      }
    }
  }

  lemma LoadedIsSound(w: World, plugin: Key, p: PluginObj, t: Target)
    requires Inv(w, plugin, t) && p in w.pluginVersions
    ensures SoundCopy(w, p, t)
  {
    AdvancesReflexive(p.progress);
  }

  /** A new list is only stored over an empty one, when every server listed before is justified. */
  lemma NewListSound(w: World, plugin: Key, a: Action, t: Target, t': Target)
    requires Inv(w, plugin, t) && Lists(w, plugin, a) && Learns(w, plugin, a, Apply(w, plugin, a), t, t')
    ensures Inv(Apply(w, plugin, a), plugin, t')
  {
    var w' := Apply(w, plugin, a);
    var list := w'.plugin.progress;
    assert w.plugin.progress == [] by {
      assert w.pass.p in w.pluginVersions && w.pass.p == w.plugin;
    }
    AdvancesReflexive(list);
    assert [] + list == list;
    NewListGood(w, plugin, a, t, t');
    hide Good;
    InvGrows(w, plugin, t, t.(justified := t'.justified));
    WorkersStaySound(w, w', plugin, t.(justified := t'.justified));
    forall id | id in w'.workers ensures WorkerSound(w', plugin, w'.workers[id], t') {
      assert WorkerSound(w', plugin, w'.workers[id], t.(justified := t'.justified));
    }
  }

  lemma NewListGood(w: World, plugin: Key, a: Action, t: Target, t': Target)
    requires Inv(w, plugin, t) && Lists(w, plugin, a) && Learns(w, plugin, a, Apply(w, plugin, a), t, t')
    requires w.plugin.progress == []
    ensures Good(Apply(w, plugin, a).plugin.progress, t') && Dated(Apply(w, plugin, a).plugin.progress)
  {
    var list := Apply(w, plugin, a).plugin.progress;
    assert list == Requested(a.matched, w.now);
    if t'.listed && !t'.justified {
      var i :| 0 <= i < |a.matched| && a.matched[i] == t.k;
      assert list[i] in list;
    }
  }

  /** Storing a sound copy: the new object is sound and every other copy is stale. */
  lemma StoreSound(w: World, w': World, plugin: Key, p: PluginObj, t: Target)
    requires Inv(w, plugin, t) && w.finalizer
    requires p.rv == w.plugin.rv && SoundCopy(w, p, t)
    requires w'.plugin == PluginObj(w.plugin.rv + 1, p.progress) && w'.pluginVersions == w.pluginVersions + {w'.plugin}
    requires w'.past == w.past && w'.servers == w.servers && w'.cache == w.cache && w'.finalizer
    requires w'.pass == w.pass || PassSound(w', t)
    requires forall id | id in w'.workers :: id in w.workers && w'.workers[id] == w.workers[id]
    ensures Inv(w', plugin, t)
  {
    hide Good, Advances, WasStored;
    WorkersStaySound(w, w', plugin, t);
  }

  lemma StepPass(w: World, plugin: Key, a: Action, t: Target, t': Target)
    requires a.PassStart? || a.PassInit? || a.PassCheck? || a.PassMark? || a.PassForce?
    requires Inv(w, plugin, t) && Enabled(w, plugin, a) && Learns(w, plugin, a, Apply(w, plugin, a), t, t')
    ensures Inv(Apply(w, plugin, a), plugin, t')
  {
    hide PassSound;
    if Lists(w, plugin, a) {
      NewListSound(w, plugin, a, t, t');
    } else {
      var next := Apply(w, plugin, a).pass;
      NextPassSound(w, plugin, a, t);
      OnlyPassMoves(w, next, plugin, t);
      InvGrows(w.(pass := next), plugin, t, t');
    }
  }

  lemma OnlyPassMoves(w: World, next: Pass, plugin: Key, t: Target)
    requires Inv(w, plugin, t) && PassSound(w.(pass := next), t)
    ensures Inv(w.(pass := next), plugin, t)
  {
    hide Good, Advances, PassSound, VersionsSound, WasStored;
    SamePlugin(w, w.(pass := next), plugin, t);
  }

  lemma NextPassSound(w: World, plugin: Key, a: Action, t: Target)
    requires a.PassStart? || a.PassInit? || a.PassCheck? || a.PassMark? || a.PassForce?
    requires Inv(w, plugin, t) && Enabled(w, plugin, a) && Knows(w, plugin, t) && !Lists(w, plugin, a)
    ensures Apply(w, plugin, a) == w.(pass := Apply(w, plugin, a).pass)
    ensures PassSound(Apply(w, plugin, a), t)
  {
    match a
    case PassStart(_) =>
    case PassInit(_, _, _) =>
      LoadedIsSound(w, plugin, w.pass.p, t);
      assert [] + w.pass.p.progress == w.pass.p.progress;
    case PassCheck(read) => CheckSound(w, plugin, read, t);
    case PassMark(read) => MarkSound(w, plugin, read, t);
    case PassForce => ForceSound(w, w.pass.p, t);
  }

  lemma StepWrite(w: World, plugin: Key, ok: bool, t: Target)
    requires Inv(w, plugin, t) && Enabled(w, plugin, PassWrite(ok))
    ensures Inv(Apply(w, plugin, PassWrite(ok)), plugin, t)
  {
    var w' := Apply(w, plugin, PassWrite(ok));
    StepExtends(w, plugin, PassWrite(ok));
    if w.pass.PendWrite? || !Accepted(w, w.pass.p, ok) {
      hide Good, Advances, Extends, WasStored;
      SamePlugin(w, w', plugin, t);
    } else if w.pass.Removing? {
      DoneIsJustified(w.pass.p.progress, t);
      hide Good, Advances, Extends, WasStored;
      WorkersStaySound(w, w', plugin, t);
    } else {
      AdvancesReflexive(w.pass.p.progress);
      hide Good, Advances;
      StoreSound(w, w', plugin, w.pass.p, t);
    }
  }

  lemma DoneIsJustified(progress: seq<Entry>, t: Target)
    requires Good(progress, t) && AllDone(progress)
    ensures t.listed ==> t.justified
  {
  }

  // ---------------------------------------------------------------- the steps of workers and environment

  lemma StepWorkerRead(w: World, plugin: Key, id: nat, p: PluginObj, t: Target)
    requires Inv(w, plugin, t) && Enabled(w, plugin, WorkerRead(id, p)) && Knows(w, plugin, t)
    ensures Inv(Apply(w, plugin, WorkerRead(id, p)), plugin, t)
  {
    var w' := Apply(w, plugin, WorkerRead(id, p));
    StepExtends(w, plugin, WorkerRead(id, p));
    JarlessIsJustified(w, plugin, w.workers[id], t);
    LoadedIsSound(w, plugin, p, t);
    MarkedDoneSound(w, p, w.workers[id].server, t);
    hide Good, Advances, Extends, WasStored, VersionsSound;
    SamePlugin(w, w', plugin, t);
  }

  /** A worker that found a request without a JAR name, or removed the JAR, may report its server done. */
  lemma JarlessIsJustified(w: World, plugin: Key, u: Worker, t: Target)
    requires WorkerSound(w, plugin, u, t) && Knows(w, plugin, t)
    requires (u.Picked? && u.x.jar == "") || u.Removed?
    ensures u.server == t.k ==> t.justified
  {
    if u.Picked? && u.server == t.k {
      var h: nat :| h <= |w.past| && t.k in StateAt(w, h) && StateAt(w, h)[t.k] == u.s;
      assert LacksJar(u.s.installed, plugin) && CarriesRequest(u.s.installed, plugin);
      assert NoJarAt(w, plugin, t.k, t.since, h);
    }
  }

  lemma StepWorkerWrite(w: World, plugin: Key, id: nat, ok: bool, t: Target)
    requires Inv(w, plugin, t) && Enabled(w, plugin, WorkerWrite(id, ok))
    ensures Inv(Apply(w, plugin, WorkerWrite(id, ok)), plugin, t)
  {
    hide Good, Advances;
    var w' := Apply(w, plugin, WorkerWrite(id, ok));
    var p := w.workers[id].p;
    assert WorkerSound(w, plugin, w.workers[id], t);
    if Accepted(w, p, ok) {
      StoreSound(w, w', plugin, p, t);
    } else {
      SamePlugin(w, w', plugin, t);
    }
  }

  lemma StepWorkerRemove(w: World, plugin: Key, id: nat, ok: bool, t: Target, t': Target)
    requires Inv(w, plugin, t) && Enabled(w, plugin, WorkerRemove(id, ok))
    requires Learns(w, plugin, WorkerRemove(id, ok), Apply(w, plugin, WorkerRemove(id, ok)), t, t')
    ensures Inv(Apply(w, plugin, WorkerRemove(id, ok)), plugin, t')
  {
    hide Good, Advances;
    var a := WorkerRemove(id, ok);
    var w' := Apply(w, plugin, a);
    var u := w.workers[id];
    assert WorkerSound(w, plugin, u, t);
    InvGrows(w, plugin, t, t');
    if ok {
      var h: nat :| h <= |w.past| && u.server in StateAt(w, h) && StateAt(w, h)[u.server] == u.s;
      assert RemovesJar(w, plugin, a, w', u.server, u.x.jar, h);
    }
    SamePlugin(w, w', plugin, t');
  }

  /** The Update workers' steps. */
  lemma StepOfWorker(w: World, plugin: Key, a: Action, t: Target, t': Target)
    requires a.WorkerStart? || a.WorkerRemove? || a.WorkerRead? || a.WorkerWrite? || a.WorkerStop?
    requires Inv(w, plugin, t) && Enabled(w, plugin, a) && Learns(w, plugin, a, Apply(w, plugin, a), t, t')
    ensures Inv(Apply(w, plugin, a), plugin, t')
  {
    hide Good, Advances;
    var w' := Apply(w, plugin, a);
    match a {
      case WorkerRemove(id, ok) => StepWorkerRemove(w, plugin, id, ok, t, t');
      case WorkerRead(id, p) =>
        StepWorkerRead(w, plugin, id, p, t);
        InvGrows(w', plugin, t, t');
      case WorkerWrite(id, ok) =>
        StepWorkerWrite(w, plugin, id, ok, t);
        InvGrows(w', plugin, t, t');
      case WorkerStart(id, k, s, x) =>
        assert WasStored(w', k, s) by {
          assert k in StateAt(w', w.cache) && StateAt(w', w.cache)[k] == s;
        }
        SamePlugin(w, w', plugin, t);
        InvGrows(w', plugin, t, t');
      case WorkerStop(id) =>
        SamePlugin(w, w', plugin, t);
        InvGrows(w', plugin, t, t');
    }
  }

  lemma StepEnvironment(w: World, plugin: Key, a: Action, t: Target)
    requires a.Tick? || a.CacheMove? || a.SetDisk? || a.SetServer?
    requires Inv(w, plugin, t) && Enabled(w, plugin, a)
    ensures Inv(Apply(w, plugin, a), plugin, t)
  {
    StepExtends(w, plugin, a);
    hide Good, Advances, Extends, WasStored;
    SamePlugin(w, Apply(w, plugin, a), plugin, t);
  }

  lemma StepKeepsInv(w: World, plugin: Key, a: Action, t: Target, t': Target)
    requires Inv(w, plugin, t) && Enabled(w, plugin, a) && Learns(w, plugin, a, Apply(w, plugin, a), t, t')
    ensures Inv(Apply(w, plugin, a), plugin, t')
  {
    hide Inv;
    if a.PassStart? || a.PassInit? || a.PassCheck? || a.PassMark? || a.PassForce? {
      StepPass(w, plugin, a, t, t');
    } else if a.PassWrite? {
      StepWrite(w, plugin, a.ok, t);
      InvGrows(Apply(w, plugin, a), plugin, t, t');
    } else if a.Tick? || a.CacheMove? || a.SetDisk? || a.SetServer? {
      StepEnvironment(w, plugin, a, t);
      InvGrows(Apply(w, plugin, a), plugin, t, t');
    } else {
      StepOfWorker(w, plugin, a, t, t');
    }
  }

  // ---------------------------------------------------------------- over runs

  /** Server k as listed by step i0 from state `since` of the store, seen in state n of the run. */
  ghost function TargetAt(plugin: Key, ws: seq<World>, acts: seq<Action>, i0: nat, n: nat, k: Key, since: nat): Target
    requires |ws| == |acts| + 1 && n < |ws|
  {
    Target(k, since, i0 < n, Justified(plugin, ws, acts, i0, n, k, since))
  }

  lemma ShownStays(plugin: Key, ws: seq<World>, acts: seq<Action>, i0: nat, n: nat, k: Key, since: nat, r: Reason)
    requires IsRun(plugin, ws, acts) && n < |acts|
    requires Shown(plugin, ws, acts, i0, n, k, since, r)
    ensures Shown(plugin, ws, acts, i0, n + 1, k, since, r)
  {
    assert IsStep(plugin, ws, acts, n);
    StepExtends(ws[n], plugin, acts[n]);
    match r
    case ServerGone =>
      var h: nat :| GoneAt(ws[n], k, since, h);
      assert GoneAt(ws[n + 1], k, since, h);
    case NoJarRecorded =>
      var h: nat :| NoJarAt(ws[n], plugin, k, since, h);
      assert NoJarAt(ws[n + 1], plugin, k, since, h);
    case TimedOut =>
    case JarRemoved(jar) =>
      var i: nat, h: nat :| i < n && RemovesJarAt(plugin, ws, acts, i, k, jar, h);
  }

  lemma RunLearns(plugin: Key, ws: seq<World>, acts: seq<Action>, i0: nat, n: nat, k: Key, since: nat)
    requires IsRun(plugin, ws, acts) && i0 < |acts| && n < |acts|
    requires Lists(ws[i0], plugin, acts[i0]) && k in acts[i0].matched && since == acts[i0].since
    ensures Learns(ws[n], plugin, acts[n], ws[n + 1], TargetAt(plugin, ws, acts, i0, n, k, since), TargetAt(plugin, ws, acts, i0, n + 1, k, since))
  {
    if Justified(plugin, ws, acts, i0, n, k, since) {
      var r :| Shown(plugin, ws, acts, i0, n, k, since, r);
      ShownStays(plugin, ws, acts, i0, n, k, since, r);
    }
    StateShows(plugin, ws, acts, i0, n, k, since);
    var w' := ws[n + 1];
    forall jar, h: nat | RemovesJar(ws[n], plugin, acts[n], w', k, jar, h)
      ensures Justified(plugin, ws, acts, i0, n + 1, k, since)
    {
      assert RemovesJarAt(plugin, ws, acts, n, k, jar, h);
      assert Shown(plugin, ws, acts, i0, n + 1, k, since, JarRemoved(jar));
    }
  }

  lemma StateShows(plugin: Key, ws: seq<World>, acts: seq<Action>, i0: nat, n: nat, k: Key, since: nat)
    requires |ws| == |acts| + 1 && n < |ws|
    ensures Knows(ws[n], plugin, TargetAt(plugin, ws, acts, i0, n, k, since))
  {
    forall h: nat | GoneAt(ws[n], k, since, h) ensures Justified(plugin, ws, acts, i0, n, k, since) {
      assert Shown(plugin, ws, acts, i0, n, k, since, ServerGone);
    }
    forall h: nat | NoJarAt(ws[n], plugin, k, since, h) ensures Justified(plugin, ws, acts, i0, n, k, since) {
      assert Shown(plugin, ws, acts, i0, n, k, since, NoJarRecorded);
    }
    if i0 < n && OverdueIn(ws[n], k) {
      assert Shown(plugin, ws, acts, i0, n, k, since, TimedOut);
    }
  }

  lemma {:induction false} RunKeepsInv(plugin: Key, ws: seq<World>, acts: seq<Action>, i0: nat, n: nat, k: Key, since: nat)
    requires IsRun(plugin, ws, acts) && i0 < |acts| && n < |ws|
    requires Lists(ws[i0], plugin, acts[i0]) && k in acts[i0].matched && since == acts[i0].since
    ensures Inv(ws[n], plugin, TargetAt(plugin, ws, acts, i0, n, k, since))
  {
    if n > 0 {
      hide Inv, Enabled, Apply, Learns;
      RunKeepsInv(plugin, ws, acts, i0, n - 1, k, since);
      RunLearns(plugin, ws, acts, i0, n - 1, k, since);
      assert IsStep(plugin, ws, acts, n - 1);
      StepKeepsInv(ws[n - 1], plugin, acts[n - 1], TargetAt(plugin, ws, acts, i0, n - 1, k, since),
                   TargetAt(plugin, ws, acts, i0, n, k, since));
    }
  }

  /**
    Finalizer safety.  In every interleaving, when the finalizer is gone, every server that was ever
    listed has, in a state of the store that is not older than the one the listing read, been gone or
    been without a recorded JAR, or it had its recorded JAR removed from both folders, or the request
    of this listing waited longer than the timeout.  Where the request of an earlier deletion was on
    the server already, a missing JAR may be older.
   */
  lemma FinalizerSafety(plugin: Key, ws: seq<World>, acts: seq<Action>, i0: nat, n: nat, k: Key)
    requires IsRun(plugin, ws, acts) && i0 < n < |ws|
    requires Lists(ws[i0], plugin, acts[i0]) && k in acts[i0].matched
    requires !ws[n].finalizer
    ensures exists r :: Shown(plugin, ws, acts, i0, n, k, acts[i0].since, r)
  {
    RunKeepsInv(plugin, ws, acts, i0, n, k, acts[i0].since);
  }

  /** The reason is as new as the listing, also for a removed JAR. */
  ghost predicate ShownSince(plugin: Key, ws: seq<World>, acts: seq<Action>, i0: nat, n: nat, k: Key, since: nat, r: Reason)
    requires |ws| == |acts| + 1 && n < |ws|
  {
    match r
    case ServerGone => exists h: nat :: GoneAt(ws[n], k, since, h)
    case NoJarRecorded => exists h: nat :: since <= h && NoJarAt(ws[n], plugin, k, since, h)
    case TimedOut => exists i | i0 < i <= n :: OverdueIn(ws[i], k)
    case JarRemoved(jar) => exists i: nat, h: nat | i < n :: since <= h && RemovesJarAt(plugin, ws, acts, i, k, jar, h)
  }

  /** No state before the listing had the request on the server: the plugin's first deletion there. */
  ghost predicate FirstRequest(w: World, plugin: Key, k: Key, since: nat) {
    forall h: nat | h < since && k in StateAt(w, h) :: !CarriesRequest(StateAt(w, h)[k].installed, plugin)
  }

  /** Where no earlier deletion of the plugin left its request behind, every reason is as new as the listing. */
  lemma FirstDeletionSafety(plugin: Key, ws: seq<World>, acts: seq<Action>, i0: nat, n: nat, k: Key)
    requires IsRun(plugin, ws, acts) && i0 < n < |ws|
    requires Lists(ws[i0], plugin, acts[i0]) && k in acts[i0].matched
    requires !ws[n].finalizer && FirstRequest(ws[i0], plugin, k, acts[i0].since)
    ensures exists r :: ShownSince(plugin, ws, acts, i0, n, k, acts[i0].since, r)
  {
    var since := acts[i0].since;
    FinalizerSafety(plugin, ws, acts, i0, n, k);
    RunKeepsInv(plugin, ws, acts, i0, i0, k, since);
    var r :| Shown(plugin, ws, acts, i0, n, k, since, r);
    match r
    case ServerGone => assert ShownSince(plugin, ws, acts, i0, n, k, since, r);
    case TimedOut => assert ShownSince(plugin, ws, acts, i0, n, k, since, r);
    case NoJarRecorded =>
      var h: nat :| NoJarAt(ws[n], plugin, k, since, h);
      HistoryAgrees(plugin, ws, acts, i0, n);
      assert ShownSince(plugin, ws, acts, i0, n, k, since, r);
    case JarRemoved(jar) =>
      var i: nat, h: nat :| i < n && RemovesJarAt(plugin, ws, acts, i, k, jar, h);
      HistoryAgrees(plugin, ws, acts, if i < i0 then i else i0, if i < i0 then i0 else i);
      assert CarriesRequest(StateAt(ws[i], h)[k].installed, plugin);
      assert since <= h;
      assert ShownSince(plugin, ws, acts, i0, n, k, since, r);
  }

  lemma {:induction false} HistoryAgrees(plugin: Key, ws: seq<World>, acts: seq<Action>, i: nat, j: nat)
    requires IsRun(plugin, ws, acts) && i <= j < |ws|
    ensures Extends(ws[i], ws[j])
    decreases j
  {
    assert Extends(ws[i], ws[i]);
    if i < j {
      hide Apply, Enabled, Extends;
      HistoryAgrees(plugin, ws, acts, i, j - 1);
      assert IsStep(plugin, ws, acts, j - 1);
      StepExtends(ws[j - 1], plugin, acts[j - 1]);
      ExtendsTransitive(ws[i], ws[j - 1], ws[j]);
    }
  }

  // ---------------------------------------------------------------- progress

  /** The invariant without a target. */
  ghost predicate Base(w: World, plugin: Key) {
    Inv(w, plugin, Target(plugin, 0, false, true))
  }

  lemma {:induction false} RunKeepsBase(plugin: Key, ws: seq<World>, acts: seq<Action>, n: nat)
    requires IsRun(plugin, ws, acts) && n < |ws|
    ensures Base(ws[n], plugin)
  {
    if n > 0 {
      hide Inv, Enabled, Apply;
      RunKeepsBase(plugin, ws, acts, n - 1);
      assert IsStep(plugin, ws, acts, n - 1);
      var t := Target(plugin, 0, false, true);
      StepKeepsInv(ws[n - 1], plugin, acts[n - 1], t, t);
    }
  }

  lemma StepAdvances(w: World, plugin: Key, a: Action)
    requires Base(w, plugin) && Enabled(w, plugin, a)
    ensures Lists(w, plugin, a) || Advances(w.plugin.progress, Apply(w, plugin, a).plugin.progress)
    ensures Lists(w, plugin, a) ==> w.plugin.progress == [] && Apply(w, plugin, a).plugin.progress == Requested(a.matched, w.now)
  {
    hide Good, Advances, WasStored;
    AdvancesReflexive(w.plugin.progress);
    if a.WorkerWrite? {
      assert WorkerSound(w, plugin, w.workers[a.id], Target(plugin, 0, false, true));
    }
  }

  /**
    While the list is not empty no step adds an entry, reopens one or changes a request time, every
    entry carries its request time, and the number of open entries does not grow.
   */
  lemma ProgressOnlyAdvances(plugin: Key, ws: seq<World>, acts: seq<Action>, n: nat)
    requires IsRun(plugin, ws, acts) && n < |acts|
    ensures forall e | e in ws[n].plugin.progress :: e.requestedAt.Some?
    ensures ws[n].plugin.progress != [] ==>
              && Advances(ws[n].plugin.progress, ws[n + 1].plugin.progress)
              && OpenCount(ws[n + 1].plugin.progress) <= OpenCount(ws[n].plugin.progress)
  {
    hide Advances, Apply, Enabled;
    RunKeepsBase(plugin, ws, acts, n);
    assert IsStep(plugin, ws, acts, n);
    StepAdvances(ws[n], plugin, acts[n]);
    if ws[n].plugin.progress != [] {
      AdvancesMeaning(ws[n].plugin.progress, ws[n + 1].plugin.progress);
    }
  }

  /** Every entry goes back to a listing, so that finalizer safety is about every server ever on the list. */
  lemma {:induction false} EntriesWereListed(plugin: Key, ws: seq<World>, acts: seq<Action>, n: nat, e: Entry) returns (i0: nat)
    requires IsRun(plugin, ws, acts) && n < |ws| && e in ws[n].plugin.progress
    ensures i0 < n && Lists(ws[i0], plugin, acts[i0]) && e.server in acts[i0].matched
    ensures e.requestedAt == Some(ws[i0].now)
  {
    hide Advances, Apply, Enabled, Inv;
    assert n > 0;
    RunKeepsBase(plugin, ws, acts, n - 1);
    assert IsStep(plugin, ws, acts, n - 1);
    StepAdvances(ws[n - 1], plugin, acts[n - 1]);
    if Lists(ws[n - 1], plugin, acts[n - 1]) {
      i0 := n - 1;
    } else {
      AdvancesMeaning(ws[n - 1].plugin.progress, ws[n].plugin.progress);
      var d :| d in ws[n - 1].plugin.progress && Follows(d, e);
      i0 := EntriesWereListed(plugin, ws, acts, n - 1, d);
    }
  }

  lemma {:induction false} AdvancesKeepsUnique(a: seq<Entry>, b: seq<Entry>)
    requires Advances(a, b) && UniqueServers(a)
    ensures UniqueServers(b)
  {
    if a != [] {
      var rest := a[1..];
      assert UniqueServers(rest) by {
        assert forall i | 0 <= i < |rest| :: rest[i] == a[i + 1];
      }
      if !a[0].jarDeleted && Advances(rest, b) {
        AdvancesKeepsUnique(rest, b);
      } else {
        AdvancesKeepsUnique(rest, b[1..]);
        AdvancesMeaning(rest, b[1..]);
        forall j | 1 <= j < |b| ensures b[j].server != b[0].server {
          assert b[1..][j - 1] == b[j] && b[j] in b[1..];
          var e :| e in rest && Follows(e, b[j]);
          var i :| 0 <= i < |rest| && rest[i] == e;
          assert a[i + 1] == e;
        }
        assert forall i | 0 <= i < |b| - 1 :: b[1..][i] == b[i + 1];
      }
    }
  }

  /** No server is listed twice. */
  lemma {:induction false} RunKeepsUnique(plugin: Key, ws: seq<World>, acts: seq<Action>, n: nat)
    requires IsRun(plugin, ws, acts) && n < |ws|
    ensures UniqueServers(ws[n].plugin.progress)
  {
    if n > 0 {
      hide Advances, Apply, Inv;
      RunKeepsUnique(plugin, ws, acts, n - 1);
      RunKeepsBase(plugin, ws, acts, n - 1);
      assert IsStep(plugin, ws, acts, n - 1);
      StepAdvances(ws[n - 1], plugin, acts[n - 1]);
      if !Lists(ws[n - 1], plugin, acts[n - 1]) {
        AdvancesKeepsUnique(ws[n - 1].plugin.progress, ws[n].plugin.progress);
      }
    }
  }
}
