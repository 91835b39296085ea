/**
  One backup: RCON save hooks around a volume snapshot (internal/controller/backup_controller.go,
  performBackup; pkg/backup/hooks.go).
 */
module BackupSession {
  import opened Operations

  /** What the attempts so far say about the server's auto-save. */
  datatype AutoSave = On | Flushed | Quiet | Unsure

  function After(m: AutoSave, s: Step): AutoSave {
    if s.event == SAVE_ALL then (if s.ok then Flushed else Unsure)
    else if s.event == SAVE_OFF then (if s.ok && m == Flushed then Quiet else Unsure)
    else if s.event == SAVE_ON then On
    else m
  }

  function Mode(t: seq<Step>): AutoSave {
    if t == [] then On else After(Mode(t[..|t| - 1]), t[|t| - 1])
  }

  /** How many backups were recorded as successful. */
  function Successes(t: seq<Step>): nat {
    if t == [] then 0 else Successes(t[..|t| - 1]) + if t[|t| - 1].event == RecordBackup(true) then 1 else 0
  }

  predicate IsBackupEvent(e: Event) {
    e.FindVolume? || e.CheckSnapshotApi? || e.CreateSnapshot? || e.ApplyRetention? || e.CountSnapshots? || e.RecordBackup? ||
    e.CreateRcon? || e.ConnectRcon? || e.CloseRcon? || e in {SAVE_ALL, SAVE_OFF, SAVE_ON}
  }

  /** What a backup may attempt after the attempts t. */
  predicate Allowed(t: seq<Step>, e: Event, rcon: bool) {
    && IsBackupEvent(e)
    && (e == CloseRcon ==> Mode(t) == On)
    && (e == CreateSnapshot && rcon ==> Mode(t) == Quiet)
    && (e == RecordBackup(true) ==> Step(CreateSnapshot, true) in t)
  }

  predicate Disciplined(t: seq<Step>, rcon: bool) {
    t == [] || (Disciplined(t[..|t| - 1], rcon) && Allowed(t[..|t| - 1], t[|t| - 1].event, rcon))
  }

  lemma Extend(t: seq<Step>, s: Step, rcon: bool)
    requires Disciplined(t, rcon) && Allowed(t, s.event, rcon)
    ensures Disciplined(t + [s], rcon) && Mode(t + [s]) == After(Mode(t), s)
    ensures Successes(t + [s]) == Successes(t) + if s.event == RecordBackup(true) then 1 else 0
  {
    assert (t + [s])[..|t|] == t;
  }

  /** When auto-save is on at the end, every save-all and save-off attempt is followed by a save-on attempt before RCON is closed. */
  lemma {:induction false} OnMeansRestored(t: seq<Step>, rcon: bool, i: nat)
    requires Disciplined(t, rcon) && Mode(t) == On && i < |t| && t[i].event in {SAVE_ALL, SAVE_OFF}
    ensures exists j :: i < j < |t| && t[j].event == SAVE_ON && forall k | i < k < j :: t[k].event != CloseRcon
  {
    var last := |t| - 1;
    var front := t[..last];
    if t[last].event == SAVE_ON {
      if exists k :: i < k < last && front[k].event == CloseRcon {
        var k :| i < k < last && front[k].event == CloseRcon;
        Prefix(t, rcon, k);
        OnMeansRestored(t[..k], rcon, i);
      }
    } else {
      Prefix(t, rcon, last);
      assert i != last;
      OnMeansRestored(front, rcon, i);
    }
  }

  lemma {:induction false} Prefix(t: seq<Step>, rcon: bool, n: nat)
    requires Disciplined(t, rcon) && n <= |t|
    ensures Disciplined(t[..n], rcon)
    ensures n < |t| ==> Allowed(t[..n], t[n].event, rcon)
  {
    if n == |t| {
      assert t[..n] == t;
    } else if n < |t| - 1 {
      assert t[..|t| - 1][..n] == t[..n];
      Prefix(t[..|t| - 1], rcon, n);
    }
  }

  ghost predicate SilentAfter(t: seq<Step>, b: nat) {
    forall k | b < k < |t| :: t[k].event != SAVE_ON
  }

  /** A quiet server has completed save-all and then save-off, with no save-on since. */
  lemma {:induction false} QuietMeansSaved(t: seq<Step>)
    ensures Mode(t) == Flushed ==> exists a :: 0 <= a < |t| && t[a] == Step(SAVE_ALL, true)
    ensures Mode(t) == Quiet ==> exists a, b :: 0 <= a < b < |t| && t[a] == Step(SAVE_ALL, true) && t[b] == Step(SAVE_OFF, true) && SilentAfter(t, b)
  {
    if t != [] {
      var last := |t| - 1;
      var front := t[..last];
      QuietMeansSaved(front);
      if Mode(t) == Flushed {
        if t[last].event == SAVE_ALL {
          assert t[last] == Step(SAVE_ALL, true);
        } else {
          var a :| 0 <= a < |front| && front[a] == Step(SAVE_ALL, true);
          assert t[a] == front[a];
        }
      } else if Mode(t) == Quiet {
        if t[last].event == SAVE_OFF {
          var a :| 0 <= a < |front| && front[a] == Step(SAVE_ALL, true);
          assert t[a] == front[a] && t[last] == Step(SAVE_OFF, true) && SilentAfter(t, last);
        } else {
          var a, b :| 0 <= a < b < |front| && front[a] == Step(SAVE_ALL, true) && front[b] == Step(SAVE_OFF, true) && SilentAfter(front, b);
          assert t[a] == front[a] && t[b] == front[b];
          forall k | b < k < |t| ensures t[k].event != SAVE_ON {
            if k < last {
              assert t[k] == front[k];
            }
          }
        }
      }
    }
  }

  /** Every save-all or save-off attempt is followed by a save-on attempt before RCON is closed. */
  ghost predicate AutoSaveRestored(t: seq<Step>) {
    forall i | 0 <= i < |t| && t[i].event in {SAVE_ALL, SAVE_OFF} ::
      exists j :: i < j < |t| && t[j].event == SAVE_ON && forall k | i < k < j :: t[k].event != CloseRcon
  }

  /** A snapshot is requested only after a completed save-all and save-off and before the save-on. */
  ghost predicate SnapshotsQuiet(t: seq<Step>) {
    forall i | 0 <= i < |t| && t[i].event == CreateSnapshot ::
      exists a, b :: 0 <= a < b < i && t[a] == Step(SAVE_ALL, true) && t[b] == Step(SAVE_OFF, true) && SilentAfter(t[..i], b)
  }

  /** A record marked successful comes after a snapshot that was created. */
  ghost predicate RecordsHonest(t: seq<Step>) {
    forall i | 0 <= i < |t| && t[i].event == RecordBackup(true) :: Step(CreateSnapshot, true) in t[..i]
  }

  lemma DisciplineMeaning(t: seq<Step>, rcon: bool)
    requires Disciplined(t, rcon) && Mode(t) == On
    ensures AutoSaveRestored(t) && RecordsHonest(t)
    ensures rcon ==> SnapshotsQuiet(t)
  {
    forall i | 0 <= i < |t| && t[i].event in {SAVE_ALL, SAVE_OFF}
      ensures exists j :: i < j < |t| && t[j].event == SAVE_ON && forall k | i < k < j :: t[k].event != CloseRcon
    {
      OnMeansRestored(t, rcon, i);
    }
    if rcon {
      forall i | 0 <= i < |t| && t[i].event == CreateSnapshot
        ensures exists a, b :: 0 <= a < b < i && t[a] == Step(SAVE_ALL, true) && t[b] == Step(SAVE_OFF, true) && SilentAfter(t[..i], b)
      {
        Prefix(t, rcon, i);
        QuietMeansSaved(t[..i]);
        var a, b :| 0 <= a < b < i && t[..i][a] == Step(SAVE_ALL, true) && t[..i][b] == Step(SAVE_OFF, true) && SilentAfter(t[..i], b);
        assert t[a] == t[..i][a] && t[b] == t[..i][b];
      }
    }
    forall i | 0 <= i < |t| && t[i].event == RecordBackup(true) ensures Step(CreateSnapshot, true) in t[..i] {
      Prefix(t, rcon, i);
    }
  }

  /** Flush to disk, then turn auto-save off; a failure leaves the outcome of the last command unsure. */
  method PreSnapshotHook(c: Cluster) returns (ok: bool)
    requires Disciplined(c.log, true)
    modifies c`log, c`checks
    ensures Disciplined(c.log, true) && old(c.log) <= c.log
    ensures ok ==> Mode(c.log) == Quiet
    ensures Successes(c.log) == Successes(old(c.log))
  {
    ghost var sent: seq<Step>;
    var cancelled := c.Cancelled();
    if cancelled {
      return false;
    }
    Extend(c.log, Step(SAVE_ALL, true), true);
    Extend(c.log, Step(SAVE_ALL, false), true);
    ok, sent := c.SendCommand("save-all");
    if !ok {
      return false;
    }
    cancelled := c.Cancelled();
    if cancelled {
      return false;
    }
    Extend(c.log, Step(SAVE_OFF, true), true);
    Extend(c.log, Step(SAVE_OFF, false), true);
    ok, sent := c.SendCommand("save-off");
  }

  /** Turns auto-save back on, on a context of its own that nothing has cancelled. */
  method PostSnapshotHook(c: Cluster)
    requires c.connected && Disciplined(c.log, true)
    modifies c`log
    ensures c.log == old(c.log) + [Step(SAVE_ON, true)] || c.log == old(c.log) + [Step(SAVE_ON, false)]
    ensures Successes(c.log) == Successes(old(c.log))
    ensures Disciplined(c.log, true) && Mode(c.log) == On
  {
    Extend(c.log, Step(SAVE_ON, true), true);
    Extend(c.log, Step(SAVE_ON, false), true);
    var ok := c.Do(SAVE_ON);
  }

  /** Any attempt that carries no restriction. */
  method Attempt(c: Cluster, e: Event, rcon: bool) returns (ok: bool)
    requires Disciplined(c.log, rcon) && Allowed(c.log, e, rcon)
    modifies c`log
    ensures c.log == old(c.log) + [Step(e, ok)]
    ensures Disciplined(c.log, rcon) && Mode(c.log) == After(Mode(old(c.log)), Step(e, ok))
    ensures Successes(c.log) == Successes(old(c.log)) + if e == RecordBackup(true) then 1 else 0
  {
    Extend(c.log, Step(e, true), rcon);
    Extend(c.log, Step(e, false), rcon);
    ok := c.Do(e);
  }

  method CloseSession(c: Cluster)
    requires Disciplined(c.log, true) && Mode(c.log) == On
    modifies c`log, c`connected
    ensures !c.connected && old(c.log) <= c.log && Successes(c.log) == Successes(old(c.log))
    ensures Disciplined(c.log, true) && Mode(c.log) == On
  {
    Extend(c.log, Step(CloseRcon, true), true);
    Extend(c.log, Step(CloseRcon, false), true);
    ghost var sent := c.Close();
    assert sent == [] ==> c.log == old(c.log);
  }

  /**
    One backup.  On every path, with auto-save on before: it is on again after the last save-on
    attempt and before RCON is closed, the snapshot is requested in a quiet server, and a success is
    recorded exactly when the backup succeeds, which takes a snapshot that was created.
   */
  method PerformBackup(c: Cluster, rcon: bool) returns (ok: bool)
    requires !c.connected && Disciplined(c.log, rcon) && Mode(c.log) == On
    modifies c
    ensures !c.connected && old(c.log) <= c.log
    ensures Disciplined(c.log, rcon) && Mode(c.log) == On
    ensures AutoSaveRestored(c.log) && RecordsHonest(c.log) && (rcon ==> SnapshotsQuiet(c.log))
    ensures ok ==> Step(CreateSnapshot, true) in c.log[|old(c.log)|..]
    ensures Successes(c.log) == Successes(old(c.log)) + if ok then 1 else 0
  {
    ok := RunBackup(c, rcon);
    DisciplineMeaning(c.log, rcon);
  }

  method RunBackup(c: Cluster, rcon: bool) returns (ok: bool)
    requires !c.connected && Disciplined(c.log, rcon) && Mode(c.log) == On
    modifies c
    ensures !c.connected && old(c.log) <= c.log
    ensures Disciplined(c.log, rcon) && Mode(c.log) == On
    ensures ok ==> Step(CreateSnapshot, true) in c.log[|old(c.log)|..]
    ensures Successes(c.log) == Successes(old(c.log)) + if ok then 1 else 0
  {
    hide Disciplined, Mode, Successes;
    var done := Attempt(c, FindVolume, rcon);
    if !done {
      done := Attempt(c, RecordBackup(false), rcon);
      return false;
    }
    if !rcon {
      ok := SnapshotAndRecord(c, rcon);
      return;
    }
    done := QuietServer(c);
    if !done {
      return false;
    }
    ok := SnapshotAndRecord(c, rcon);
    // the deferred calls, last registered first
    PostSnapshotHook(c);
    CloseSession(c);
  }

  /** Connects and quiets the server; on failure everything is undone and the failure recorded. */
  method QuietServer(c: Cluster) returns (ok: bool)
    requires !c.connected && Disciplined(c.log, true) && Mode(c.log) == On
    modifies c
    ensures c.connected == ok && old(c.log) <= c.log
    ensures Disciplined(c.log, true) && Mode(c.log) == if ok then Quiet else On
    ensures Successes(c.log) == Successes(old(c.log))
  {
    hide Disciplined, Mode, Successes;
    var done := Attempt(c, CreateRcon, true);
    if !done {
      done := Attempt(c, RecordBackup(false), true);
      return false;
    }
    Extend(c.log, Step(ConnectRcon, true), true);
    Extend(c.log, Step(ConnectRcon, false), true);
    ghost var sent;
    done, sent := c.Connect();
    if !done {
      done := Attempt(c, RecordBackup(false), true);
      return false;
    }
    done := PreSnapshotHook(c);
    if !done {
      PostSnapshotHook(c);
      done := Attempt(c, RecordBackup(false), true);
      CloseSession(c);
      return false;
    }
    return true;
  }

  method SnapshotAndRecord(c: Cluster, rcon: bool) returns (ok: bool)
    requires Disciplined(c.log, rcon) && Mode(c.log) == if rcon then Quiet else On
    modifies c`log
    ensures Disciplined(c.log, rcon) && Mode(c.log) == Mode(old(c.log)) && old(c.log) <= c.log
    ensures ok ==> Step(CreateSnapshot, true) in c.log[|old(c.log)|..]
    ensures Successes(c.log) == Successes(old(c.log)) + if ok then 1 else 0
  {
    hide Disciplined, Mode, Successes;
    ghost var n := |c.log|;
    var done := Attempt(c, CreateSnapshot, rcon);
    assert c.log[n] == Step(CreateSnapshot, done);
    if !done {
      done := Attempt(c, RecordBackup(false), rcon);
      return false;
    }
    // retention and counting are best effort
    done := Attempt(c, ApplyRetention, rcon);
    done := Attempt(c, CountSnapshots, rcon);
    assert c.log[n] == Step(CreateSnapshot, true);
    done := Attempt(c, RecordBackup(true), rcon);
    assert c.log[n..][0] == Step(CreateSnapshot, true);
    return true;
  }
}
