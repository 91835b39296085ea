/**
  Scheduled backups: cron jobs, recorded trigger times and the reconcile pass that serves them
  (internal/controller/backup_controller.go).  A pass and a firing of the cron are atomic steps and
  the clock does not go back.  Times are in nanoseconds.
 */
module BackupTriggers {
  import opened Wrappers
  import opened Api

  const BACKUP_NOW_MAX_AGE := 300 * SECOND

  datatype BackupSpec = BackupSpec(enabled: bool, schedule: string)

  /** The last backup as the API server keeps it, at a resolution of one second. */
  datatype Record = Record(startedAt: int, successful: bool)

  /** `annotation` is the backup-now annotation; the inner option is its time, if it can be read. */
  datatype Server = Server(backup: Option<BackupSpec>, annotation: Option<Option<int>>, lastBackup: Option<Record>)

  datatype CronEntry = CronEntry(id: nat, spec: string)

  datatype Job = Job(key: string, spec: string)

  /** A backup that succeeded. */
  datatype Success = Success(key: string, startedAt: int)

  /** What the steps of a run are about. */
  datatype State = State(clock: int, triggers: map<string, int>, servers: map<string, Server>, successes: seq<Success>)

  /** The server, its backups or its schedule are gone. */
  predicate Unwanted(s: State, k: string) {
    || k !in s.servers
    || s.servers[k].backup.None?
    || !s.servers[k].backup.value.enabled
    || s.servers[k].backup.value.schedule == ""
  }

  /** Backup d of server k started at or after t. */
  predicate Serves(d: Success, k: string, t: int) {
    d.key == k && d.startedAt >= t
  }

  ghost predicate ServedSince(s: State, t: State, k: string, trigger: int)
    requires |s.successes| <= |t.successes|
  {
    exists i :: |s.successes| <= i < |t.successes| && Serves(t.successes[i], k, trigger)
  }

  ghost predicate TriggersPast(s: State) {
    forall k | k in s.triggers :: s.triggers[k] <= s.clock
  }

  /** A pass adds no trigger and drops one only if it is unwanted or served by a backup of this very pass. */
  ghost predicate IsPass(s: State, t: State) {
    && s.clock <= t.clock
    && s.successes <= t.successes
    && (forall k | k in t.triggers :: k in s.triggers && t.triggers[k] == s.triggers[k])
    && (forall k | k in s.triggers && k !in t.triggers :: Unwanted(s, k) || ServedSince(s, t, k, s.triggers[k]))
  }

  /** Two parts of a pass that leave the backup specs alone are a pass. */
  lemma PassesCompose(s: State, t: State, u: State)
    requires IsPass(s, t) && IsPass(t, u)
    requires forall k :: Unwanted(t, k) ==> Unwanted(s, k)
    ensures IsPass(s, u)
  {
    forall k | k in s.triggers && k !in u.triggers && !Unwanted(s, k) ensures ServedSince(s, u, k, s.triggers[k]) {
      if k in t.triggers {
        var i :| |t.successes| <= i < |u.successes| && Serves(u.successes[i], k, t.triggers[k]);
      } else {
        var i :| |s.successes| <= i < |t.successes| && Serves(t.successes[i], k, s.triggers[k]);
        assert u.successes[i] == t.successes[i];
      }
    }
  }

  /** A firing records the time of the clock. */
  ghost predicate IsFiring(s: State, t: State) {
    && s.clock <= t.clock
    && t.successes == s.successes
    && exists k | k in t.triggers :: t.triggers == s.triggers[k := t.clock]
  }

  /** Anybody may edit servers, and pre-update backups may succeed at any time. */
  ghost predicate IsEdit(s: State, t: State) {
    s.clock <= t.clock && t.triggers == s.triggers && s.successes <= t.successes
  }

  ghost predicate IsRun(ss: seq<State>) {
    && ss != [] && TriggersPast(ss[0])
    && forall i | 0 <= i < |ss| - 1 :: IsPass(ss[i], ss[i + 1]) || IsFiring(ss[i], ss[i + 1]) || IsEdit(ss[i], ss[i + 1])
  }

  lemma {:induction false} RunOnlyGrows(ss: seq<State>, i: nat, j: nat)
    requires IsRun(ss) && i <= j < |ss|
    ensures ss[i].clock <= ss[j].clock && ss[i].successes <= ss[j].successes && TriggersPast(ss[j])
    decreases j
  {
    if j > 0 {
      RunOnlyGrows(ss, if i == j then j - 1 else i, j - 1);
      assert IsPass(ss[j - 1], ss[j - 1 + 1]) || IsFiring(ss[j - 1], ss[j - 1 + 1]) || IsEdit(ss[j - 1], ss[j - 1 + 1]);
    }
  }

  /** The server was unwanted in some state from i on before j. */
  ghost predicate UnwantedBetween(ss: seq<State>, i: nat, j: nat, k: string)
    requires i <= j < |ss|
  {
    exists m :: i <= m < j && Unwanted(ss[m], k)
  }

  /**
    No scheduled backup is lost: a trigger recorded in state i is, in every later state, still
    recorded or replaced by a later one, unless a backup that started at or after it has succeeded
    in the meantime or the server, its backups or its schedule were gone at some moment.
   */
  lemma {:induction false} NoTriggerIsLost(ss: seq<State>, i: nat, j: nat, k: string)
    requires IsRun(ss) && i <= j < |ss| && k in ss[i].triggers
    ensures ss[i].successes <= ss[j].successes
    ensures || (k in ss[j].triggers && ss[j].triggers[k] >= ss[i].triggers[k])
            || ServedSince(ss[i], ss[j], k, ss[i].triggers[k])
            || UnwantedBetween(ss, i, j, k)
    decreases j
  {
    RunOnlyGrows(ss, i, j);
    if i < j {
      var s, t := ss[j - 1], ss[j - 1 + 1];
      var trigger := ss[i].triggers[k];
      NoTriggerIsLost(ss, i, j - 1, k);
      RunOnlyGrows(ss, i, j - 1);
      RunOnlyGrows(ss, j - 1, j);
      if ServedSince(ss[i], s, k, trigger) {
        var m :| |ss[i].successes| <= m < |s.successes| && Serves(s.successes[m], k, trigger);
        assert Serves(t.successes[m], k, trigger);
      } else if UnwantedBetween(ss, i, j - 1, k) {
      } else {
        assert IsPass(s, t) || IsFiring(s, t) || IsEdit(s, t);
        if IsPass(s, t) && k !in t.triggers {
          if Unwanted(s, k) {
            assert UnwantedBetween(ss, i, j, k);
          } else {
            var m :| |s.successes| <= m < |t.successes| && Serves(t.successes[m], k, s.triggers[k]);
            assert Serves(t.successes[m], k, trigger);
          }
        }
      }
    }
  }

  // ---------------------------------------------------------------- the reconciler

  datatype Result = Finished | Stopped | Failed

  /**
    The backup controller with its maps, the scheduler it registers jobs with, and the servers in
    the API server.  The n-th uncertain call fails when `faults(n)` and takes `advance(n)` of time.
   */
  class BackupReconciler {
    const faults: nat -> bool
    const advance: nat -> nat
    const validCron: string -> bool
    var calls: nat
    var clock: int
    var servers: map<string, Server>
    var cronEntries: map<string, CronEntry>
    var cronTriggerTimes: map<string, int>
    var jobs: map<nat, Job>
    var nextId: nat
    ghost var successes: seq<Success>

    constructor (faults: nat -> bool, advance: nat -> nat, validCron: string -> bool, clock: int, servers: map<string, Server>)
      ensures Valid() && Abstract() == State(clock, map[], servers, [])
    {
      this.faults, this.advance, this.validCron, calls := faults, advance, validCron, 0;
      this.clock, this.servers, cronEntries, cronTriggerTimes := clock, servers, map[], map[];
      jobs, nextId, successes := map[], 0, [];
    }

    ghost function Abstract(): State
      reads this`clock, this`cronTriggerTimes, this`servers, this`successes
    {
      State(clock, cronTriggerTimes, servers, successes)
    }

    /** Entries and registered jobs match one to one: no server has two jobs and no job is orphaned. */
    ghost predicate JobsMatch()
      reads this`cronEntries, this`jobs, this`nextId
    {
      && (forall k | k in cronEntries :: cronEntries[k].id in jobs && jobs[cronEntries[k].id] == Job(k, cronEntries[k].spec))
      && (forall id | id in jobs :: jobs[id].key in cronEntries && cronEntries[jobs[id].key].id == id)
      && (forall id | id in jobs :: id < nextId)
    }

    ghost predicate Valid()
      reads this`cronEntries, this`jobs, this`nextId, this`clock, this`cronTriggerTimes, this`servers, this`successes
    {
      JobsMatch() && TriggersPast(Abstract())
    }

    method Call() returns (ok: bool)
      modifies this`calls, this`clock
      ensures clock >= old(clock)
    {
      ok := !faults(calls);
      clock := clock + advance(calls);
      calls := calls + 1;
    }

    /** The callback of a registered job. */
    method Fire(id: nat)
      requires Valid() && id in jobs
      modifies this`calls, this`clock, this`cronTriggerTimes
      ensures Valid() && IsFiring(old(Abstract()), Abstract())
      ensures clock >= old(clock) && cronTriggerTimes == old(cronTriggerTimes)[jobs[id].key := clock]
    {
      var _ := Call();
      cronTriggerTimes := cronTriggerTimes[jobs[id].key := clock];
      assert jobs[id].key in Abstract().triggers;
    }

    method RemoveBackupCronJob(k: string)
      requires JobsMatch()
      modifies this`cronEntries, this`jobs
      ensures JobsMatch() && cronEntries == old(cronEntries) - {k}
    {
      if k in cronEntries {
        jobs := jobs - {cronEntries[k].id};
        cronEntries := cronEntries - {k};
      }
    }

    method ConsumeCronTrigger(k: string)
      modifies this`cronTriggerTimes
      ensures cronTriggerTimes == old(cronTriggerTimes) - {k}
    {
      cronTriggerTimes := cronTriggerTimes - {k};
    }

    /** Afterwards the server has a job exactly for this schedule, or none if the schedule is invalid. */
    method ManageBackupCronSchedule(k: string, schedule: string) returns (valid: bool)
      requires JobsMatch()
      modifies this`cronEntries, this`jobs, this`nextId
      ensures JobsMatch()
      ensures valid ==> k in cronEntries && cronEntries[k].spec == schedule
      ensures !valid ==> k !in cronEntries && !validCron(schedule)
      ensures forall l | l != k :: (l in cronEntries <==> l in old(cronEntries)) && (l in cronEntries ==> cronEntries[l] == old(cronEntries)[l])
    {
      if k in cronEntries {
        if cronEntries[k].spec == schedule {
          return true;
        }
        RemoveBackupCronJob(k);
      }
      if !validCron(schedule) {
        return false;
      }
      jobs := jobs[nextId := Job(k, schedule)];
      cronEntries := cronEntries[k := CronEntry(nextId, schedule)];
      nextId := nextId + 1;
      return true;
    }

    /** One backup; its record is best effort, and the API server cuts its start to a full second. */
    method PerformBackup(k: string) returns (ok: bool)
      requires k in servers
      modifies this`calls, this`clock, this`servers, this`successes
      ensures clock >= old(clock) && servers.Keys == old(servers).Keys && servers[k].backup == old(servers)[k].backup
      ensures forall l | l in servers && l != k :: servers[l] == old(servers)[l]
      ensures !ok ==> successes == old(successes)
      ensures ok ==> |successes| == |old(successes)| + 1 && successes[..|old(successes)|] == old(successes)
      ensures ok ==> successes[|old(successes)|].key == k && successes[|old(successes)|].startedAt >= old(clock)
    {
      var startedAt := clock;
      ok := Call();
      if ok {
        successes := successes + [Success(k, startedAt)];
      }
      var stored := Call();
      if stored {
        servers := servers[k := servers[k].(lastBackup := Some(Record(startedAt - startedAt % SECOND, ok)))];
      }
    }

    /** Some recorded successful backup started at or after the trigger. */
    predicate Satisfied(k: string)
      requires k in servers && k in cronTriggerTimes
      reads this`servers, this`cronTriggerTimes
    {
      servers[k].lastBackup.Some? && servers[k].lastBackup.value.successful &&
      servers[k].lastBackup.value.startedAt >= cronTriggerTimes[k]
    }

    method ShouldRunScheduledBackup(k: string) returns (run: bool)
      requires k in servers
      ensures run <==> k in cronTriggerTimes && !Satisfied(k)
    {
      if k !in cronTriggerTimes {
        return false;
      }
      var last := servers[k].lastBackup;
      if last.Some? {
        if last.value.successful && last.value.startedAt >= cronTriggerTimes[k] {
          return false;
        }
      }
      return true;
    }

    method ShouldBackupNow(k: string) returns (now: bool)
      requires k in servers
      ensures now <==> servers[k].annotation.Some? && servers[k].annotation.value.Some? &&
                       -BACKUP_NOW_MAX_AGE <= clock - servers[k].annotation.value.value <= BACKUP_NOW_MAX_AGE
    {
      var a := servers[k].annotation;
      if a.None? || a.value.None? {
        return false;
      }
      var age := clock - a.value.value;
      return !(age > BACKUP_NOW_MAX_AGE || age < -BACKUP_NOW_MAX_AGE);
    }

    method RemoveBackupNowAnnotation(k: string) returns (ok: bool)
      requires k in servers
      modifies this`calls, this`clock, this`servers
      ensures clock >= old(clock)
      ensures servers == if ok then old(servers)[k := old(servers)[k].(annotation := None)] else old(servers)
    {
      ok := Call();
      if ok {
        servers := servers[k := servers[k].(annotation := None)];
      }
    }

    /**
      One pass.  It keeps jobs and entries matched, drops a trigger only when that is justified, and
      when it runs to its end it leaves no trigger that a recorded successful backup does not serve.
     */
    method Reconcile(k: string) returns (r: Result)
      requires Valid()
      modifies this
      ensures Valid() && IsPass(old(Abstract()), Abstract())
      ensures r == Finished ==> k in servers && (k in cronTriggerTimes ==> Satisfied(k))
      ensures r == Finished && !Unwanted(old(Abstract()), k) ==>
                k in cronEntries && cronEntries[k].spec == old(servers)[k].backup.value.schedule
    {
      hide JobsMatch;
      var got := Call();
      if !got {
        return Failed;
      }
      if k !in servers || servers[k].backup.None? || !servers[k].backup.value.enabled {
        RemoveBackupCronJob(k);
        ConsumeCronTrigger(k);
        return Stopped;
      }
      var schedule := servers[k].backup.value.schedule;
      if schedule != "" {
        var valid := ManageBackupCronSchedule(k, schedule);
        var persisted := Call();
        if !persisted {
          return Failed;
        }
        if !valid {
          return Stopped;
        }
      } else {
        RemoveBackupCronJob(k);
        ConsumeCronTrigger(k);
      }
      var available := Call();
      if !available {
        return Stopped;
      }
      ghost var mid := Abstract();
      assert IsPass(old(Abstract()), mid);
      r := ServeTriggers(k);
      PassesCompose(old(Abstract()), mid, Abstract());
    }

    method ServeTriggers(k: string) returns (r: Result)
      requires Valid() && k in servers
      modifies this`calls, this`clock, this`servers, this`successes, this`cronTriggerTimes
      ensures Valid() && IsPass(old(Abstract()), Abstract())
      ensures r == Finished ==> k in servers && (k in cronTriggerTimes ==> Satisfied(k))
    {
      hide JobsMatch;
      ghost var s := Abstract();
      var ok := ServeAnnotation(k);
      if !ok {
        return Failed;
      }
      ghost var mid := Abstract();
      r := ServeSchedule(k);
      PassesCompose(s, mid, Abstract());
    }

    /** The backup that the annotation asks for, if any; only a successful one uses up the trigger. */
    method ServeAnnotation(k: string) returns (ok: bool)
      requires Valid() && k in servers
      modifies this`calls, this`clock, this`servers, this`successes, this`cronTriggerTimes
      ensures Valid() && IsPass(old(Abstract()), Abstract()) && k in servers
      ensures forall l :: Unwanted(Abstract(), l) ==> Unwanted(old(Abstract()), l)
    {
      hide JobsMatch;
      ghost var s := Abstract();
      var now := ShouldBackupNow(k);
      if !now && servers[k].annotation.Some? {
        ok := RemoveBackupNowAnnotation(k);
        return;
      }
      if now {
        ok := RemoveBackupNowAnnotation(k);
        if !ok {
          return;
        }
        var done := PerformBackup(k);
        if done {
          assert Serves(successes[|s.successes|], k, s.clock);
          ConsumeCronTrigger(k);
        }
      }
      ok := true;
    }

    /** The backup that a recorded trigger asks for, if any; only a successful one uses up the trigger. */
    method ServeSchedule(k: string) returns (r: Result)
      requires Valid() && k in servers
      modifies this`calls, this`clock, this`servers, this`successes, this`cronTriggerTimes
      ensures Valid() && IsPass(old(Abstract()), Abstract())
      ensures r == Finished ==> k in servers && (k in cronTriggerTimes ==> Satisfied(k))
    {
      hide JobsMatch;
      ghost var s := Abstract();
      var run := ShouldRunScheduledBackup(k);
      if run {
        var done := PerformBackup(k);
        if !done {
          return Failed;
        }
        assert Serves(successes[|s.successes|], k, s.clock);
        ConsumeCronTrigger(k);
      }
      return Finished;
    }
  }
}
