/**
  The progress list of a plugin deletion and the pass of the Plugin controller over it
  (internal/controller/plugin_controller.go).  Times are in seconds.
 */
module DeletionProgress {
  import opened Wrappers
  import opened Api

  datatype Entry = Entry(server: Key, jarDeleted: bool, deletedAt: Option<int>, requestedAt: Option<int>)

  /** The part of a server's per-plugin status that the deletion uses. */
  datatype Installed = Installed(plugin: Key, jar: string, pending: bool)

  const DELETION_TIMEOUT := 600

  function Requested(servers: seq<Key>, now: int): (progress: seq<Entry>) {
    seq(|servers|, i requires 0 <= i < |servers| => Entry(servers[i], false, None, Some(now)))
  }

  function Done(e: Entry, now: int): Entry {
    e.(jarDeleted := true, deletedAt := Some(now))
  }

  /** The first entry of the server becomes done. */
  function MarkedDone(progress: seq<Entry>, server: Key, now: int): seq<Entry> {
    if progress == [] then []
    else if progress[0].server == server then [Done(progress[0], now)] + progress[1..]
    else [progress[0]] + MarkedDone(progress[1..], server, now)
  }

  predicate Overdue(e: Entry, now: int) {
    !e.jarDeleted && e.requestedAt.Some? && now - e.requestedAt.value > DELETION_TIMEOUT
  }

  function ForceCompleted(progress: seq<Entry>, now: int): seq<Entry> {
    seq(|progress|, i requires 0 <= i < |progress| => if Overdue(progress[i], now) then Done(progress[i], now) else progress[i])
  }

  predicate AllDone(progress: seq<Entry>) {
    forall e | e in progress :: e.jarDeleted
  }

  function OpenCount(progress: seq<Entry>): nat {
    if progress == [] then 0 else (if progress[0].jarDeleted then 0 else 1) + OpenCount(progress[1..])
  }

  // ---------------------------------------------------------------- progress only moves forward

  /** The same request, and what was done stays done. */
  predicate Follows(e: Entry, f: Entry) {
    f.server == e.server && f.requestedAt == e.requestedAt && (e.jarDeleted ==> f.jarDeleted)
  }

  /** Some open entries are dropped, the rest stay in order, no entry is added and no entry reopens. */
  predicate Advances(a: seq<Entry>, b: seq<Entry>) {
    if a == [] then b == []
    else (!a[0].jarDeleted && Advances(a[1..], b)) || (b != [] && Follows(a[0], b[0]) && Advances(a[1..], b[1..]))
  }

  lemma {:induction false} AdvancesTransitive(a: seq<Entry>, b: seq<Entry>, c: seq<Entry>)
    requires Advances(a, b) && Advances(b, c)
    ensures Advances(a, c)
    decreases |a| + |b|
  {
    if a != [] {
      if !a[0].jarDeleted && Advances(a[1..], b) {
        AdvancesTransitive(a[1..], b, c);
      } else if !b[0].jarDeleted && Advances(b[1..], c) {
        AdvancesTransitive(a[1..], b[1..], c);
      } else {
        AdvancesTransitive(a[1..], b[1..], c[1..]);
      }
    }
  }

  lemma {:induction false} PointwiseAdvances(a: seq<Entry>, b: seq<Entry>)
    requires |a| == |b| && forall i | 0 <= i < |a| :: Follows(a[i], b[i])
    ensures Advances(a, b)
  {
    if a != [] {
      PointwiseAdvances(a[1..], b[1..]);
    }
  }

  lemma {:induction false} MarkedDoneEntries(progress: seq<Entry>, server: Key, now: int)
    ensures |MarkedDone(progress, server, now)| == |progress|
    ensures forall i | 0 <= i < |progress| ::
              var f := MarkedDone(progress, server, now)[i];
              f == progress[i] || (progress[i].server == server && f == Done(progress[i], now))
    ensures Advances(progress, MarkedDone(progress, server, now))
  {
    if progress == [] {
    } else if progress[0].server == server {
      PointwiseAdvances(progress, MarkedDone(progress, server, now));
    } else {
      MarkedDoneEntries(progress[1..], server, now);
      PointwiseAdvances(progress, MarkedDone(progress, server, now));
    }
  }

  lemma ForceCompletedAdvances(progress: seq<Entry>, now: int)
    ensures Advances(progress, ForceCompleted(progress, now))
  {
    PointwiseAdvances(progress, ForceCompleted(progress, now));
  }

  /** Along an advance the number of open entries does not grow, and every entry comes from an earlier one. */
  lemma {:induction false} AdvancesMeaning(a: seq<Entry>, b: seq<Entry>)
    requires Advances(a, b)
    ensures OpenCount(b) <= OpenCount(a) && |b| <= |a|
    ensures forall f | f in b :: exists e :: e in a && Follows(e, f)
    ensures forall e | e in a && e.jarDeleted :: exists f :: f in b && Follows(e, f)
  {
    if a != [] {
      assert a == [a[0]] + a[1..];
      if !a[0].jarDeleted && Advances(a[1..], b) {
        AdvancesMeaning(a[1..], b);
      } else {
        AdvancesMeaning(a[1..], b[1..]);
        assert b == [b[0]] + b[1..];
        assert a[0] in a && b[0] in b;
      }
    }
  }

  ghost predicate UniqueServers(progress: seq<Entry>) {
    forall i, j | 0 <= i < j < |progress| :: progress[i].server != progress[j].server
  }

  // ---------------------------------------------------------------- one pass of the Plugin controller

  /** The JAR a server's status records for the plugin; None stands for no status entry. */
  function JarOf(installed: seq<Installed>, plugin: Key): Option<string> {
    if installed == [] then None
    else if installed[0].plugin == plugin then Some(installed[0].jar)
    else JarOf(installed[1..], plugin)
  }

  predicate NoJar(installed: seq<Installed>, plugin: Key) {
    JarOf(installed, plugin) in {None, Some("")}
  }

  function MarkedPending(installed: seq<Installed>, plugin: Key): seq<Installed> {
    if installed == [] then []
    else if installed[0].plugin == plugin then [installed[0].(pending := true)] + installed[1..]
    else [installed[0]] + MarkedPending(installed[1..], plugin)
  }

  lemma {:induction false} MarkedPendingKeepsJar(installed: seq<Installed>, plugin: Key)
    ensures JarOf(MarkedPending(installed, plugin), plugin) == JarOf(installed, plugin)
  {
    if installed != [] && installed[0].plugin != plugin {
      MarkedPendingKeepsJar(installed[1..], plugin);
      assert MarkedPending(installed, plugin)[1..] == MarkedPending(installed[1..], plugin);
    }
  }

  /** Nothing is left to wait for: the server is gone, it has no JAR of the plugin, or the request is too old. */
  predicate Resolvable(e: Entry, servers: map<Key, seq<Installed>>, plugin: Key, now: int) {
    || e.jarDeleted
    || e.server !in servers
    || NoJar(servers[e.server], plugin)
    || Overdue(e, now)
  }

  predicate Gone(e: Entry, servers: map<Key, seq<Installed>>) {
    !e.jarDeleted && e.server !in servers
  }

  /** The list without the open entries of servers that no longer exist. */
  function Surviving(list: seq<Entry>, servers: map<Key, seq<Installed>>): seq<Entry> {
    if list == [] then []
    else
      var last := list[|list| - 1];
      Surviving(list[..|list| - 1], servers) + (if Gone(last, servers) then [] else [last])
  }

  /** The list with every open entry done whose server has no JAR to wait for. */
  function Marked(list: seq<Entry>, servers: map<Key, seq<Installed>>, plugin: Key, now: int): (marked: seq<Entry>)
    ensures |marked| == |list|
  {
    seq(|list|, i requires 0 <= i < |list| =>
      if !list[i].jarDeleted && (list[i].server !in servers || NoJar(servers[list[i].server], plugin))
      then Done(list[i], now) else list[i])
  }

  lemma {:induction false} SurvivingMembers(list: seq<Entry>, servers: map<Key, seq<Installed>>)
    ensures forall e :: e in Surviving(list, servers) <==> e in list && !Gone(e, servers)
    ensures UniqueServers(list) ==> UniqueServers(Surviving(list, servers))
  {
    if list != [] {
      var front := list[..|list| - 1];
      SurvivingMembers(front, servers);
      assert list == front + [list[|list| - 1]];
      if UniqueServers(list) {
        var s := Surviving(list, servers);
        forall i, j | 0 <= i < j < |s| ensures s[i].server != s[j].server {
          assert s[i] in Surviving(front, servers);
        }
      }
    }
  }

  /** After cleanup, marking and forced completion every entry is done exactly when none has anything left to wait for. */
  lemma PassCompletesIff(list: seq<Entry>, servers: map<Key, seq<Installed>>, plugin: Key, now: int)
    ensures AllDone(ForceCompleted(Marked(Surviving(list, servers), servers, plugin, now), now)) <==>
            forall e | e in list :: Resolvable(e, servers, plugin, now)
  {
    var s := Surviving(list, servers);
    var result := ForceCompleted(Marked(s, servers, plugin, now), now);
    SurvivingMembers(list, servers);
    forall i | 0 <= i < |s| ensures result[i].jarDeleted <==> Resolvable(s[i], servers, plugin, now) {
    }
    if AllDone(result) {
      forall e | e in list ensures Resolvable(e, servers, plugin, now) {
        if !Gone(e, servers) {
          var i :| 0 <= i < |s| && s[i] == e;
          assert result[i] in result;
        }
      }
    } else {
      var f :| f in result && !f.jarDeleted;
      var i :| 0 <= i < |result| && result[i] == f;
      assert s[i] in s;
    }
  }

  /**
    Cleanup of a list: only open entries of servers that are gone are dropped, and, when `exact`, all
    of them.  A failed lookup keeps an entry for a later pass.
   */
  ghost predicate IsCleaned(list: seq<Entry>, kept: seq<Entry>, servers: map<Key, seq<Installed>>, exact: bool) {
    && (exact ==> kept == Surviving(list, servers))
    && |kept| <= |list| && (|kept| == |list| ==> kept == list)
    && (forall e | e in kept :: e in list)
    && (forall e | e in list :: e in kept || Gone(e, servers))
    && (UniqueServers(list) ==> UniqueServers(kept))
  }

  lemma NothingCleaned(servers: map<Key, seq<Installed>>, exact: bool)
    ensures IsCleaned([], [], servers, exact)
  {
  }

  lemma KeepNext(list: seq<Entry>, kept: seq<Entry>, e: Entry, servers: map<Key, seq<Installed>>, exact: bool)
    requires IsCleaned(list, kept, servers, exact) && (exact ==> !Gone(e, servers))
    ensures IsCleaned(list + [e], kept + [e], servers, exact)
  {
    assert (list + [e])[..|list|] == list;
    if UniqueServers(list + [e]) {
      assert UniqueServers(list) by {
        assert forall i | 0 <= i < |list| :: (list + [e])[i] == list[i];
      }
      forall k | k in kept ensures k.server != e.server {
        var i :| 0 <= i < |list| && list[i] == k;
        assert (list + [e])[i] == k && (list + [e])[|list|] == e;
      }
    }
  }

  lemma DropNext(list: seq<Entry>, kept: seq<Entry>, e: Entry, servers: map<Key, seq<Installed>>, exact: bool)
    requires IsCleaned(list, kept, servers, exact) && Gone(e, servers)
    ensures IsCleaned(list + [e], kept, servers, exact)
  {
    assert (list + [e])[..|list|] == list;
    if UniqueServers(list + [e]) {
      assert UniqueServers(list) by {
        assert forall i | 0 <= i < |list| :: (list + [e])[i] == list[i];
      }
    }
  }

  /**
    The controller's pass over a plugin that is being deleted.  `stored` is the progress list in the
    API server, `progress` the pass's own copy.  A call to the API server fails when `faults` says so.
   */
  class PluginReconciler {
    const plugin: Key
    const now: int
    const faults: nat -> bool
    var calls: nat
    var progress: seq<Entry>
    var stored: seq<Entry>
    var finalizer: bool
    var servers: map<Key, seq<Installed>>

    constructor (plugin: Key, now: int, faults: nat -> bool, stored: seq<Entry>, servers: map<Key, seq<Installed>>)
      ensures this.plugin == plugin && this.now == now && this.faults == faults && calls == 0
      ensures this.stored == progress == stored && finalizer && this.servers == servers
    {
      this.plugin, this.now, this.faults, calls := plugin, now, faults, 0;
      this.stored, progress, finalizer, this.servers := stored, stored, true, servers;
    }

    ghost predicate Healthy()
    {
      forall n :: !faults(n)
    }

    method Call() returns (ok: bool)
      modifies this`calls
      ensures Healthy() ==> ok
    {
      ok := !faults(calls);
      calls := calls + 1;
    }

    method UpdateStatus() returns (ok: bool)
      modifies this`calls, this`stored
      ensures Healthy() ==> ok
      ensures stored == if ok then progress else old(stored)
    {
      ok := Call();
      if ok {
        stored := progress;
      }
    }

    method InitDeletionProgressIfNeeded(matched: seq<Key>) returns (ok: bool)
      modifies this`calls, this`progress, this`stored
      ensures Healthy() ==> ok
      ensures old(progress) != [] ==> ok && progress == old(progress) && stored == old(stored)
      ensures old(progress) == [] && ok ==> progress == stored == Requested(matched, now)
      ensures old(progress) == [] && !ok ==> stored == old(stored)
    {
      if progress != [] {
        return true;
      }
      var list: seq<Entry> := [];
      for i := 0 to |matched|
        invariant list == Requested(matched, now)[..i]
      {
        list := list + [Entry(matched[i], false, None, Some(now))];
      }
      assert Requested(matched, now)[..|matched|] == Requested(matched, now);
      ok := Call();
      if ok {
        progress := list;
        ok := UpdateStatus();
      }
    }

    method Remaining(list: seq<Entry>) returns (remaining: seq<Entry>)
      modifies this`calls
      ensures IsCleaned(list, remaining, servers, Healthy())
    {
      hide IsCleaned;
      remaining := [];
      NothingCleaned(servers, Healthy());
      for i := 0 to |list|
        invariant IsCleaned(list[..i], remaining, servers, Healthy())
      {
        var e := list[i];
        assert list[..i + 1] == list[..i] + [e];
        if e.jarDeleted {
          KeepNext(list[..i], remaining, e, servers, Healthy());
          remaining := remaining + [e];
          continue;
        }
        var answered := Call();
        if answered && e.server !in servers {
          DropNext(list[..i], remaining, e, servers, Healthy());
        } else {
          KeepNext(list[..i], remaining, e, servers, Healthy());
          remaining := remaining + [e];
        }
      }
      assert list[..|list|] == list;
    }

    method CleanupDeletedServers() returns (ok: bool)
      modifies this`calls, this`progress, this`stored
      ensures Healthy() ==> ok
      ensures IsCleaned(old(progress), progress, servers, Healthy())
      ensures stored == old(stored) || stored == progress
    {
      var remaining := Remaining(progress);
      if |remaining| != |progress| {
        progress := remaining;
        ok := UpdateStatus();
      } else {
        ok := true;
      }
    }

    method MarkJARAsDeleted(server: Key) returns (ok: bool)
      modifies this`calls, this`progress, this`stored
      ensures Healthy() ==> ok
      ensures progress == MarkedDone(old(progress), server, now)
      ensures stored == if ok then progress else old(stored)
    {
      var i := 0;
      while i < |progress| && progress[i].server != server
        invariant 0 <= i <= |progress| && progress == old(progress)
        invariant forall j | 0 <= j < i :: progress[j].server != server
      {
        i := i + 1;
      }
      MarkedDoneAt(progress, i, server, now);
      if i < |progress| {
        progress := progress[i := Done(progress[i], now)];
      }
      ok := UpdateStatus();
    }

    /** Sets the pending flag in the server's status, unless it is set already. */
    method MarkPending(server: Key) returns (ok: bool)
      requires server in servers
      modifies this`calls, this`servers
      ensures Healthy() ==> ok
      ensures servers == if ok then old(servers)[server := MarkedPending(old(servers)[server], plugin)] else old(servers)
    {
      var marked := MarkedPending(servers[server], plugin);
      ok := true;
      if marked != servers[server] {
        ok := Call();
      }
      if ok {
        servers := servers[server := marked];
      }
    }

    /**
      Asks the servers of all open entries to delete the JAR.  On success an entry without a JAR to
      wait for is done, and every other open entry's server has the plugin pending.
     */
    method MarkPluginForDeletionOnServers() returns (ok: bool)
      requires UniqueServers(progress)
      modifies this`calls, this`progress, this`stored, this`servers
      ensures servers.Keys == old(servers).Keys
      ensures forall k | k in servers :: servers[k] == old(servers)[k] || servers[k] == MarkedPending(old(servers)[k], plugin)
      ensures Healthy() ==> ok
      ensures |progress| == |old(progress)|
      ensures forall i | 0 <= i < |progress| ::
                progress[i] == old(progress)[i] || progress[i] == Marked(old(progress), old(servers), plugin, now)[i]
      ensures ok ==> progress == Marked(old(progress), old(servers), plugin, now)
      ensures ok ==> forall e | e in progress && !e.jarDeleted ::
                e.server in servers && servers[e.server] == MarkedPending(old(servers)[e.server], plugin)
    {
      hide MarkedPending, NoJar, MarkedDone;
      var entries := progress;
      for i := 0 to |entries|
        invariant servers.Keys == old(servers).Keys
        invariant forall k | k in servers :: servers[k] == old(servers)[k] || servers[k] == MarkedPending(old(servers)[k], plugin)
        invariant |progress| == |entries| && UniqueServers(progress)
        invariant forall j | i <= j < |entries| :: progress[j] == entries[j]
        invariant forall j | i <= j < |entries| && entries[j].server in servers :: servers[entries[j].server] == old(servers)[entries[j].server]
        invariant forall j | 0 <= j < i :: progress[j] == Marked(entries, old(servers), plugin, now)[j]
        invariant forall j | 0 <= j < i && !progress[j].jarDeleted ::
                    entries[j].server in servers && servers[entries[j].server] == MarkedPending(old(servers)[entries[j].server], plugin)
      {
        var e := entries[i];
        if e.jarDeleted {
          continue;
        }
        var answered := Call();
        if !answered {
          return false;
        }
        if e.server !in servers || NoJar(servers[e.server], plugin) {
          MarkedDoneAt(progress, i, e.server, now);
          ok := MarkJARAsDeleted(e.server);
        } else {
          ok := MarkPending(e.server);
        }
        if !ok {
          return false;
        }
      }
      return true;
    }

    method ForceCompleteStaleDeletions()
      modifies this`progress
      ensures progress == ForceCompleted(old(progress), now)
    {
      for i := 0 to |progress|
        invariant |progress| == |old(progress)|
        invariant forall j | 0 <= j < i :: progress[j] == ForceCompleted(old(progress), now)[j]
        invariant forall j | i <= j < |progress| :: progress[j] == old(progress)[j]
      {
        if Overdue(progress[i], now) {
          progress := progress[i := Done(progress[i], now)];
        }
      }
    }

    method AllJARsDeleted() returns (all: bool)
      ensures all <==> AllDone(progress)
    {
      for i := 0 to |progress|
        invariant forall j | 0 <= j < i :: progress[j].jarDeleted
      {
        if !progress[i].jarDeleted {
          return false;
        }
      }
      return true;
    }

    method RemoveFinalizer() returns (ok: bool)
      modifies this`calls, this`finalizer
      ensures Healthy() ==> ok
      ensures finalizer == if ok then false else old(finalizer)
    {
      ok := Call();
      if ok {
        finalizer := false;
      }
    }

    /** The list the pass works on: the stored one, or a fresh request to every matched server. */
    function Worklist(matched: seq<Key>): seq<Entry>
      reads this
    {
      if progress != [] then progress else Requested(matched, now)
    }

    /**
      A whole pass.  It removes the finalizer only when every entry of its list is done.  When every
      call succeeds and nobody interferes, it removes the finalizer exactly when no open entry has
      anything left to wait for, in particular once all requests are older than the timeout.
     */
    method ReconcileDelete(matched: seq<Key>) returns (ok: bool)
      requires finalizer && stored == progress && UniqueServers(Worklist(matched))
      modifies this
      ensures !finalizer ==> AllDone(stored)
      ensures Healthy() ==> ok
      ensures Healthy() ==> (!finalizer <==> forall e | e in old(Worklist(matched)) :: Resolvable(e, old(servers), plugin, now))
    {
      hide Surviving, Marked, ForceCompleted, UniqueServers, Resolvable;
      ghost var list := Worklist(matched);
      PassCompletesIff(list, servers, plugin, now);
      SurvivingMembers(list, servers);
      ok := InitDeletionProgressIfNeeded(matched);
      if !ok {
        return;
      }
      ok := CleanupDeletedServers();
      if !ok {
        return;
      }
      ok := MarkPluginForDeletionOnServers();
      if !ok {
        return;
      }
      ForceCompleteStaleDeletions();
      ok := UpdateStatus();
      if !ok {
        return;
      }
      var all := AllJARsDeleted();
      if all {
        ok := RemoveFinalizer();
      }
    }
  }

  /** Only the first entry of the server changes. */
  lemma {:induction false} MarkedDoneAt(progress: seq<Entry>, i: nat, server: Key, now: int)
    requires i <= |progress| && forall j | 0 <= j < i :: progress[j].server != server
    requires i < |progress| ==> progress[i].server == server
    ensures MarkedDone(progress, server, now) == if i < |progress| then progress[i := Done(progress[i], now)] else progress
  {
    if i > 0 {
      var rest := progress[1..];
      MarkedDoneAt(rest, i - 1, server, now);
      assert progress == [progress[0]] + rest;
      if i < |progress| {
        assert progress[i := Done(progress[i], now)] == [progress[0]] + rest[i - 1 := Done(rest[i - 1], now)];
      }
    } else if progress != [] {
      assert progress[0 := Done(progress[0], now)] == [Done(progress[0], now)] + progress[1..];
    }
  }
}
