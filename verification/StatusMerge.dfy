/**
  The Update controller's status write with retry on conflict
  (internal/controller/update_controller.go, updateStatusWithRetry).
 */
module StatusMerge {
  import opened Wrappers
  import opened Api

  datatype History = History(appliedAt: int, previousVersion: string, successful: bool)

  datatype Status = Status(
    currentVersion: string, currentBuild: int, desiredVersion: string, desiredBuild: int,
    availableUpdate: Option<string>, updateBlocked: Option<string>, backup: Option<string>,
    lastUpdate: Option<History>, conditions: seq<Condition>, plugins: seq<PluginStatus>)

  /** The index of the first entry for the plugin. */
  function IndexOfRef(plugins: seq<PluginStatus>, ref: Key): (i: nat)
    ensures i <= |plugins| && (i < |plugins| ==> plugins[i].ref == ref)
    ensures forall j | 0 <= j < i :: plugins[j].ref != ref
  {
    if plugins == [] || plugins[0].ref == ref then 0 else 1 + IndexOfRef(plugins[1..], ref)
  }

  function MergedPlugin(theirs: PluginStatus, ours: seq<PluginStatus>): PluginStatus {
    var i := IndexOfRef(ours, theirs.ref);
    if i == |ours| then theirs
    else theirs.(currentVersion := ours[i].currentVersion, installedJar := ours[i].installedJar,
                 pendingDeletion := ours[i].pendingDeletion)
  }

  /** Our fields put onto the status that a concurrent writer stored. */
  function Merged(theirs: Status, ours: Status): Status {
    theirs.(lastUpdate := ours.lastUpdate, conditions := ours.conditions,
            plugins := seq(|theirs.plugins|, i requires 0 <= i < |theirs.plugins| => MergedPlugin(theirs.plugins[i], ours.plugins)))
  }

  /** The refs and their order are the other writer's, and so is every field but three of the shared refs. */
  lemma MergeMeaning(theirs: Status, ours: Status, i: nat)
    requires i < |theirs.plugins|
    ensures |Merged(theirs, ours).plugins| == |theirs.plugins|
    ensures Merged(theirs, ours) == theirs.(lastUpdate := ours.lastUpdate, conditions := ours.conditions, plugins := Merged(theirs, ours).plugins)
    ensures var m, t := Merged(theirs, ours).plugins[i], theirs.plugins[i];
            && m == t.(currentVersion := m.currentVersion, installedJar := m.installedJar, pendingDeletion := m.pendingDeletion)
            && (if exists p :: p in ours.plugins && p.ref == t.ref
                then exists p :: p in ours.plugins && p.ref == t.ref && m.currentVersion == p.currentVersion &&
                                 m.installedJar == p.installedJar && m.pendingDeletion == p.pendingDeletion
                else m == t)
  {
    var t := theirs.plugins[i];
    var j := IndexOfRef(ours.plugins, t.ref);
    if j < |ours.plugins| {
      assert ours.plugins[j] in ours.plugins;
    }
  }

  /** Merging twice is merging once, and merging onto an unchanged status is writing it. */
  lemma MergeIdempotent(theirs: Status, ours: Status)
    ensures Merged(Merged(theirs, ours), ours) == Merged(theirs, ours)
    ensures UniqueRefs(ours.plugins) ==> Merged(ours, ours) == ours
  {
    var m := Merged(theirs, ours);
    assert Merged(m, ours).plugins == m.plugins;
    if UniqueRefs(ours.plugins) {
      assert Merged(ours, ours).plugins == ours.plugins;
    }
  }

  /** An object as a client holds it. */
  datatype Copy = Copy(rv: nat, status: Status)

  datatype Outcome = Stored | WriteFailed | ReadFailed | TooManyConflicts

  datatype Answer = Accepted | Conflict | Failed

  /**
    The copy a backup hands back: the caller's own when the re-read failed, else a version of the
    server with the backup's record put in; where it is the stored version, nothing else differs.
   */
  ghost predicate Refreshed(store: ServerStore, server: Copy, copy: Copy, record: string)
    reads store
  {
    && copy.rv <= store.rv
    && (copy == server || (copy.status.backup == Some(record) &&
                           (copy.rv == store.rv ==> copy.status == store.stored.(backup := Some(record)))))
  }

  /**
    The stored server object.  Before the n-th call another writer may have replaced the status
    (`others`), a read may come from a cache that is behind (`older`), and the call itself may fail
    (`faults`).
   */
  class ServerStore {
    const others: nat -> Option<Status>
    const older: nat -> Option<Copy>
    const faults: nat -> bool
    var calls: nat
    var rv: nat
    var stored: Status
    var attempts: nat
    var accepted: nat
    /** What our last accepted write replaced. */
    var replaced: Copy

    constructor (others: nat -> Option<Status>, older: nat -> Option<Copy>, faults: nat -> bool, rv: nat, stored: Status)
      ensures this.rv == rv && this.stored == stored && attempts == accepted == 0
    {
      this.others, this.older, this.faults, this.rv, this.stored := others, older, faults, rv, stored;
      calls, attempts, accepted, replaced := 0, 0, 0, Copy(rv, stored);
    }

    /** Whatever happened in between: the resource version stays exactly when the object did. */
    method Interfere()
      modifies this`calls, this`rv, this`stored
      ensures rv >= old(rv) && (rv == old(rv) ==> stored == old(stored))
    {
      if others(calls).Some? {
        rv, stored := rv + 1, others(calls).value;
      }
      calls := calls + 1;
    }

    method UpdateStatus(c: Copy) returns (answer: Answer)
      requires c.rv <= rv
      modifies this
      ensures attempts == old(attempts) + 1
      ensures accepted == old(accepted) + if answer.Accepted? then 1 else 0
      ensures answer.Accepted? ==> c.rv == old(rv) < rv && stored == c.status && replaced == Copy(c.rv, old(stored))
      ensures answer.Conflict? ==> rv > c.rv
      ensures !answer.Accepted? ==> replaced == old(replaced) && rv >= old(rv) && (rv == old(rv) ==> stored == old(stored))
    {
      attempts := attempts + 1;
      Interfere();
      if faults(calls) {
        return Failed;
      }
      if c.rv != rv {
        return Conflict;
      }
      replaced := Copy(rv, stored);
      rv, stored, accepted := rv + 1, c.status, accepted + 1;
      return Accepted;
    }

    method Get() returns (c: Option<Copy>)
      modifies this`calls, this`rv, this`stored
      ensures rv >= old(rv)
      ensures c.Some? ==> c.value.rv <= rv && (c.value.rv == rv ==> c.value.status == stored)
    {
      Interfere();
      if faults(calls) {
        return None;
      }
      if older(calls).Some? && older(calls).value.rv < rv {
        return older(calls);
      }
      return Some(Copy(rv, stored));
    }

    /**
      A backup's record: the server is read again, the record put into what was read and written back
      once.  Whatever becomes of the write, the caller goes on with what was read.
     */
    method PersistBackupStatus(server: Copy, record: string) returns (copy: Copy)
      requires server.rv <= rv
      modifies this
      ensures Refreshed(this, server, copy, record) && accepted <= old(accepted) + 1
    {
      var latest := Get();
      if latest.None? {
        return server;
      }
      var status := latest.value.status.(backup := Some(record));
      var answer := UpdateStatus(Copy(latest.value.rv, status));
      return Copy(if answer.Accepted? then rv else latest.value.rv, status);
    }

    /** The three fields of each shared plugin, by the source's nested loops. */
    method MergeInto(latest: Status, desired: Status) returns (merged: Status)
      ensures merged == Merged(latest, desired)
    {
      merged := latest.(lastUpdate := desired.lastUpdate, conditions := desired.conditions);
      for i := 0 to |merged.plugins|
        invariant merged == latest.(lastUpdate := desired.lastUpdate, conditions := desired.conditions, plugins := merged.plugins)
        invariant |merged.plugins| == |latest.plugins|
        invariant forall k | 0 <= k < i :: merged.plugins[k] == MergedPlugin(latest.plugins[k], desired.plugins)
        invariant forall k | i <= k < |merged.plugins| :: merged.plugins[k] == latest.plugins[k]
      {
        var j := 0;
        while j < |desired.plugins| && desired.plugins[j].ref != merged.plugins[i].ref
          invariant 0 <= j <= |desired.plugins|
          invariant forall k | 0 <= k < j :: desired.plugins[k].ref != merged.plugins[i].ref
        {
          j := j + 1;
        }
        assert j == IndexOfRef(desired.plugins, latest.plugins[i].ref);
        if j < |desired.plugins| {
          var d := desired.plugins[j];
          merged := merged.(plugins := merged.plugins[i := merged.plugins[i].(
            currentVersion := d.currentVersion, installedJar := d.installedJar, pendingDeletion := d.pendingDeletion)]);
        }
      }
      assert merged.plugins == Merged(latest, desired).plugins;
    }

    /**
      At most three writes.  On success exactly one was accepted, and it stored either our whole
      status over the very object we had read, or our fields merged onto the status that a
      concurrent writer had stored right before.  Otherwise nothing of ours was stored.
     */
    method UpdateStatusWithRetry(server: Copy) returns (r: Outcome, ghost writes: nat)
      requires server.rv <= rv
      modifies this
      ensures attempts == old(attempts) + writes && 1 <= writes <= 3
      ensures r.TooManyConflicts? ==> writes == 3
      ensures accepted == old(accepted) + if r.Stored? then 1 else 0
      ensures r.Stored? && writes == 1 ==> stored == server.status && replaced.rv == server.rv
      ensures r.Stored? && writes > 1 ==>
                stored == Merged(replaced.status, server.status) && replaced.rv > server.rv
      ensures !r.Stored? ==> replaced == old(replaced)
    {
      var copy := server;
      writes := 0;
      for attempt := 0 to 3
        invariant writes == attempt && attempts == old(attempts) + attempt && accepted == old(accepted) && replaced == old(replaced)
        invariant copy.rv <= rv && server.rv <= rv && (attempt > 0 ==> server.rv < rv)
        invariant attempt == 0 ==> copy == server
        invariant attempt > 0 && copy.rv == rv ==> copy.status == Merged(stored, server.status)
      {
        var answer := UpdateStatus(copy);
        writes := writes + 1;
        if answer.Accepted? {
          return Stored, writes;
        }
        if answer.Failed? {
          return WriteFailed, writes;
        }
        var latest := Get();
        if latest.None? {
          return ReadFailed, writes;
        }
        var merged := MergeInto(latest.value.status, server.status);
        copy := Copy(latest.value.rv, merged);
      }
      return TooManyConflicts, writes;
    }
  }
}
