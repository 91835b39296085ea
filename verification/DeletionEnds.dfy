/**
  Deletion ends: a pass of the Plugin controller that nobody disturbs, with all requests older than
  the timeout, removes the finalizer (internal/controller/plugin_controller.go, reconcileDelete).
 */
module DeletionEnds {
  import opened Wrappers
  import opened Api
  import opened DeletionProgress
  import opened DeletionProtocol

  predicate Expired(progress: seq<Entry>, now: int) {
    forall e | e in progress && !e.jarDeleted :: Overdue(e, now)
  }

  /** What a working read answers. */
  function Answer(w: World, k: Key): Read {
    if k in Cached(w) then Found(Cached(w)[k]) else Missing
  }

  /** What the pass does next when every call works. */
  function Next(w: World): Action {
    match w.pass
    case Loaded(_, from) => PassInit([], from, true)
    case Cleaning(_, _, rest) => PassCheck(if rest == [] then Failed else Answer(w, rest[0].server))
    case Marking(_, rest) => PassMark(if rest == [] then Failed else Answer(w, rest[0].server))
    case Forcing(_) => PassForce
    case _ => PassWrite(true)
  }

  /** The cache has the servers of these entries as they are stored. */
  predicate Fresh(w: World, entries: seq<Entry>) {
    forall e | e in entries && e.server in Cached(w) :: e.server in w.servers && w.servers[e.server] == Cached(w)[e.server]
  }

  /** The cache has the servers still to be visited as they are stored; none of them is visited twice. */
  ghost predicate Ready(w: World, rest: seq<Entry>) {
    UniqueServers(rest) && Fresh(w, rest)
  }

  /** A pass with a current copy, all of whose open entries have waited too long. */
  ghost predicate OnTrack(w: World) {
    && w.finalizer && !w.pass.Idle? && w.pass.p.rv == w.plugin.rv
    && match w.pass
       case Loaded(p, from) => p.progress != [] && Expired(p.progress, w.now) && Ready(w, p.progress) && from <= w.cache
       case Cleaning(p, kept, rest) =>
         Expired(p.progress, w.now) && Expired(kept + rest, w.now) && Ready(w, p.progress) && Ready(w, kept + rest)
       case CleanWrite(p) => Expired(p.progress, w.now) && Ready(w, p.progress)
       case Marking(p, rest) => Expired(p.progress, w.now) && Ready(w, rest)
       case MarkWrite(p, rest) => Expired(p.progress, w.now) && Ready(w, rest)
       case PendWrite(p, k, s, rest) =>
         && Expired(p.progress, w.now) && Ready(w, rest)
         && k in w.servers && w.servers[k].rv == s.rv && forall e | e in rest :: e.server != k
       case Forcing(p) => Expired(p.progress, w.now)
       case FinishWrite(p) => AllDone(p.progress)
       case Removing(p) => AllDone(p.progress)
  }

  /** A bound on the number of steps that the pass still takes. */
  function StepsLeft(pass: Pass): nat {
    match pass
    case Idle => 0
    case Removing(_) => 1
    case FinishWrite(_) => 2
    case Forcing(_) => 3
    case Marking(_, rest) => 4 + 2 * |rest|
    case MarkWrite(_, rest) => 5 + 2 * |rest|
    case PendWrite(_, _, _, rest) => 5 + 2 * |rest|
    case CleanWrite(p) => 5 + 2 * |p.progress|
    case Cleaning(_, kept, rest) => 6 + 2 * |kept| + 3 * |rest|
    case Loaded(p, _) => 7 + 3 * |p.progress|
  }

  lemma DoneKeepsExpired(progress: seq<Entry>, k: Key, now: int)
    requires Expired(progress, now)
    ensures Expired(MarkedDone(progress, k, now), now)
  {
    MarkedDoneEntries(progress, k, now);
    forall f | f in MarkedDone(progress, k, now) && !f.jarDeleted ensures Overdue(f, now) {
      var i :| 0 <= i < |progress| && MarkedDone(progress, k, now)[i] == f;
      assert progress[i] in progress;
    }
  }

  lemma ForcingFinishes(progress: seq<Entry>, now: int)
    requires Expired(progress, now)
    ensures AllDone(ForceCompleted(progress, now))
  {
    var done := ForceCompleted(progress, now);
    forall e | e in done ensures e.jarDeleted {
      var i :| 0 <= i < |done| && done[i] == e;
      assert progress[i] in progress;
    }
  }

  lemma DropKeepsReady(w: World, kept: seq<Entry>, rest: seq<Entry>)
    requires rest != [] && Ready(w, kept + rest) && Expired(kept + rest, w.now)
    ensures Ready(w, kept + rest[1..]) && Expired(kept + rest[1..], w.now)
  {
    var a, b := kept + rest, kept + rest[1..];
    assert forall e | e in b :: e in a;
    forall i, j | 0 <= i < j < |b| ensures b[i].server != b[j].server {
      assert b[i] == a[if i < |kept| then i else i + 1] && b[j] == a[if j < |kept| then j else j + 1];
    }
  }

  lemma RestStaysReady(w: World, rest: seq<Entry>)
    requires rest != [] && Ready(w, rest)
    ensures Ready(w, rest[1..]) && forall e | e in rest[1..] :: e.server != rest[0].server
  {
    assert forall i | 0 <= i < |rest| - 1 :: rest[1..][i] == rest[i + 1];
  }

  /** Readiness does not depend on where the pass is. */
  lemma ReadyAnyPass(w: World, next: Pass, list: seq<Entry>)
    ensures Ready(w.(pass := next), list) <==> Ready(w, list)
  {
    assert Cached(w.(pass := next)) == Cached(w);
  }

  lemma CheckStaysOnTrack(w: World)
    requires OnTrack(w) && w.pass.Cleaning?
    ensures var next := Check(w, Next(w).read);
            OnTrack(w.(pass := next)) && StepsLeft(next) < StepsLeft(w.pass)
  {
    hide Expired, Ready;
    var Cleaning(p, kept, rest) := w.pass;
    var next := Check(w, Next(w).read);
    forall list: seq<Entry> ensures Ready(w.(pass := next), list) <==> Ready(w, list) {
      ReadyAnyPass(w, next, list);
    }
    if rest == [] {
      assert kept + rest == kept;
    } else if !rest[0].jarDeleted && Next(w).read.Missing? {
      DropKeepsReady(w, kept, rest);
    } else {
      assert (kept + [rest[0]]) + rest[1..] == kept + rest;
    }
  }

  lemma MarkStaysOnTrack(w: World, plugin: Key)
    requires OnTrack(w) && w.pass.Marking?
    ensures var next := Mark(w, plugin, Next(w).read);
            OnTrack(w.(pass := next)) && StepsLeft(next) < StepsLeft(w.pass)
  {
    var Marking(p, rest) := w.pass;
    var next := Mark(w, plugin, Next(w).read);
    if rest != [] {
      DoneKeepsExpired(p.progress, rest[0].server, w.now);
      RestStaysReady(w, rest);
      ReadyAnyPass(w, next, rest[1..]);
      assert rest[0] in rest;
    }
  }

  /** Writing one server leaves the others as the cache has them. */
  lemma StoreKeepsReady(w: World, k: Key, installed: seq<Installed>, rest: seq<Entry>)
    requires Ready(w, rest) && w.cache <= |w.past| && forall e | e in rest :: e.server != k
    ensures Ready(StoreServer(w, k, Some(installed)), rest)
  {
    assert Cached(StoreServer(w, k, Some(installed))) == Cached(w);
  }

  /** Every step is possible, and comes closer to the removal of the finalizer. */
  lemma StepComesCloser(w: World, plugin: Key)
    requires OnTrack(w) && w.cache <= |w.past|
    ensures Enabled(w, plugin, Next(w)) && StepsLeft(w.pass) > 0
    ensures var w' := Apply(w, plugin, Next(w));
            !w'.finalizer || (OnTrack(w') && w'.cache <= |w'.past| && StepsLeft(w'.pass) < StepsLeft(w.pass))
  {
    match w.pass
    case Cleaning(_, _, _) => CheckStaysOnTrack(w);
    case Marking(_, _) => MarkStaysOnTrack(w, plugin);
    case Loaded(p, _) => LoadedStaysOnTrack(w, plugin);
    case _ => WriteStaysOnTrack(w, plugin);
  }

  lemma LoadedStaysOnTrack(w: World, plugin: Key)
    requires OnTrack(w) && w.pass.Loaded?
    ensures Enabled(w, plugin, Next(w))
    ensures var w' := Apply(w, plugin, Next(w)); OnTrack(w') && StepsLeft(w'.pass) < StepsLeft(w.pass) && w'.past == w.past && w'.cache == w.cache
  {
    var p := w.pass.p;
    assert [] + p.progress == p.progress;
    ReadyAnyPass(w, Cleaning(p, [], p.progress), p.progress);
  }

  lemma WriteStaysOnTrack(w: World, plugin: Key)
    requires OnTrack(w) && w.cache <= |w.past| && !w.pass.Loaded? && !w.pass.Cleaning? && !w.pass.Marking?
    ensures Enabled(w, plugin, Next(w))
    ensures var w' := Apply(w, plugin, Next(w));
            !w'.finalizer || (OnTrack(w') && w'.cache <= |w'.past| && StepsLeft(w'.pass) < StepsLeft(w.pass))
  {
    var w' := Apply(w, plugin, Next(w));
    match w.pass
    case Forcing(p) => ForcingFinishes(p.progress, w.now);
    case PendWrite(p, k, s, rest) =>
      StoreKeepsReady(w, k, s.installed, rest);
      ReadyAnyPass(StoreServer(w, k, Some(s.installed)), Marking(p, rest), rest);
    case CleanWrite(p) => SamePlaces(w, w', p.progress);
    case MarkWrite(p, rest) => SamePlaces(w, w', rest);
    case _ =>
  }

  lemma SamePlaces(w: World, w': World, list: seq<Entry>)
    requires w'.servers == w.servers && w'.past == w.past && w'.cache == w.cache
    ensures Ready(w, list) ==> Ready(w', list)
  {
    assert Cached(w') == Cached(w);
  }

  /** The states of an undisturbed pass. */
  ghost predicate Undisturbed(plugin: Key, ws: seq<World>) {
    ws != [] && forall i: nat | i < |ws| - 1 :: FollowsNext(plugin, ws, i)
  }

  ghost predicate FollowsNext(plugin: Key, ws: seq<World>, i: nat)
    requires i < |ws| - 1
  {
    Enabled(ws[i], plugin, Next(ws[i])) && ws[i + 1] == Apply(ws[i], plugin, Next(ws[i]))
  }

  /** An undisturbed pass over expired requests removes the finalizer, in a number of steps linear in its list. */
  lemma {:induction false} ExpiredDeletionEnds(w: World, plugin: Key) returns (ws: seq<World>)
    requires OnTrack(w) && w.cache <= |w.past|
    ensures Undisturbed(plugin, ws) && ws[0] == w && !ws[|ws| - 1].finalizer
    ensures |ws| <= StepsLeft(w.pass) + 1
    decreases StepsLeft(w.pass)
  {
    hide OnTrack, Apply, Enabled, Next;
    StepComesCloser(w, plugin);
    var w' := Apply(w, plugin, Next(w));
    if !w'.finalizer {
      ws := [w, w'];
    } else {
      var rest := ExpiredDeletionEnds(w', plugin);
      ws := [w] + rest;
      forall i: nat | i < |ws| - 1 ensures FollowsNext(plugin, ws, i) {
        assert i > 0 ==> FollowsNext(plugin, rest, i - 1);
      }
    }
  }

  /**
    From any reachable state in which the pass has just read the stored, initialised list, the cache
    has the stored servers, and every open request is older than the timeout, the undisturbed pass
    removes the finalizer.
   */
  lemma DeletionEndsFromReachableStates(plugin: Key, ws: seq<World>, acts: seq<Action>, n: nat) returns (pass: seq<World>)
    requires IsRun(plugin, ws, acts) && n < |ws|
    requires ws[n].finalizer && ws[n].pass == Loaded(ws[n].plugin, ws[n].cache)
    requires Cached(ws[n]) == ws[n].servers
    requires ws[n].plugin.progress != []
    requires forall e | e in ws[n].plugin.progress && !e.jarDeleted :: e.requestedAt.Some? ==> ws[n].now - e.requestedAt.value > DELETION_TIMEOUT
    ensures Undisturbed(plugin, pass) && pass[0] == ws[n] && !pass[|pass| - 1].finalizer
    ensures |pass| <= 8 + 3 * |ws[n].plugin.progress|
  {
    RunKeepsBase(plugin, ws, acts, n);
    RunKeepsUnique(plugin, ws, acts, n);
    pass := ExpiredDeletionEnds(ws[n], plugin);
  }
}
