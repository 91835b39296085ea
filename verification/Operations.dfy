/**
  The effects a controller pass has on the cluster, in the order it attempts them, and the RCON
  client through which it talks to a running server (pkg/rcon/client.go, pkg/backup/hooks.go).
 */
module Operations {

  datatype Event =
    | FindVolume | CheckSnapshotApi | CreateSnapshot | ApplyRetention | CountSnapshots | RecordBackup(successful: bool)
    | CreateRcon | ConnectRcon | Command(text: string) | CloseRcon
    | RemoveJars(jar: string) | ReportRemoved(plugin: string) | Download(plugin: string)
    | WriteImage(image: string) | DeletePod | AwaitPod

  /** One attempt and whether it succeeded. */
  datatype Step = Step(event: Event, ok: bool)

  const SAVE_ALL := Command("save-all")
  const SAVE_OFF := Command("save-off")
  const SAVE_ON := Command("save-on")
  const STOP := Command("stop")

  /** The commands of a graceful shutdown. */
  function ShutdownScript(warnings: seq<string>): seq<Event> {
    Warnings(warnings) + [SAVE_ALL, STOP]
  }

  function Warnings(warnings: seq<string>): (w: seq<Event>)
    ensures |w| == |warnings|
  {
    seq(|warnings|, i requires 0 <= i < |warnings| => Command("say " + warnings[i]))
  }

  /** Attempts that follow a script up to some point, where only the last one may have failed. */
  ghost predicate FollowsScript(steps: seq<Step>, script: seq<Event>) {
    && |steps| <= |script|
    && (forall i | 0 <= i < |steps| :: steps[i].event == script[i])
    && (forall i | 0 <= i < |steps| - 1 :: steps[i].ok)
  }

  ghost predicate CompletesScript(steps: seq<Step>, script: seq<Event>) {
    FollowsScript(steps, script) && |steps| == |script| && forall i | 0 <= i < |steps| :: steps[i].ok
  }

  /**
    The cluster as one pass sees it.  The n-th attempt fails when `faults(n)`; the pass's context is
    cancelled at its n-th check when `cancelled(n)`.  `log` is every attempt so far.
   */
  class Cluster {
    const faults: nat -> bool
    const cancelled: nat -> bool
    var checks: nat
    var connected: bool
    var log: seq<Step>

    constructor (faults: nat -> bool, cancelled: nat -> bool)
      ensures log == [] && !connected
    {
      this.faults, this.cancelled, checks, connected, log := faults, cancelled, 0, false, [];
    }

    method Do(e: Event) returns (ok: bool)
      modifies this`log
      ensures log == old(log) + [Step(e, ok)]
    {
      ok := !faults(|log|);
      log := log + [Step(e, ok)];
    }

    method Cancelled() returns (c: bool)
      modifies this`checks
      ensures c == cancelled(old(checks))
    {
      c := cancelled(checks);
      checks := checks + 1;
    }

    method Connect() returns (ok: bool, ghost sent: seq<Step>)
      requires !connected
      modifies this`log, this`checks, this`connected
      ensures connected == ok && log == old(log) + sent && (sent == [] ==> log == old(log))
      ensures sent == [Step(ConnectRcon, ok)] || (!ok && sent == [])
    {
      var c := Cancelled();
      if c {
        return false, [];
      }
      ok := Do(ConnectRcon);
      connected := ok;
      sent := [Step(ConnectRcon, ok)];
    }

    /** Nothing is sent without a connection or on a cancelled context. */
    method SendCommand(text: string) returns (ok: bool, ghost sent: seq<Step>)
      modifies this`log, this`checks
      ensures log == old(log) + sent && (sent == [] ==> log == old(log))
      ensures sent == [Step(Command(text), ok)] || (!ok && sent == [])
      ensures !connected || cancelled(old(checks)) ==> sent == []
    {
      var c := Cancelled();
      if c || !connected {
        return false, [];
      }
      ok := Do(Command(text));
      sent := [Step(Command(text), ok)];
    }

    method Close() returns (ghost sent: seq<Step>)
      modifies this`log, this`connected
      ensures !connected && log == old(log) + sent
      ensures if old(connected) then sent in {[Step(CloseRcon, true)], [Step(CloseRcon, false)]} else sent == []
    {
      sent := [];
      if connected {
        var ok := Do(CloseRcon);
        connected, sent := false, [Step(CloseRcon, ok)];
      }
    }

    /**
      Whatever fails or is cancelled, the server sees a prefix of the script: every warning in order,
      then save-all, then stop, each only after the one before succeeded.  Success means all of it.
     */
    method GracefulShutdown(warnings: seq<string>) returns (ok: bool, ghost sent: seq<Step>)
      modifies this`log, this`checks
      ensures log == old(log) + sent
      ensures FollowsScript(sent, ShutdownScript(warnings))
      ensures ok <==> CompletesScript(sent, ShutdownScript(warnings))
    {
      sent := [];
      if !connected {
        return false, [];
      }
      ok, sent := SendWarnings(warnings);
      if !ok {
        return;
      }
      ghost var step: seq<Step>;
      ok, step := SendCommand("save-all");
      sent := sent + step;
      if !ok {
        return;
      }
      var c := Cancelled();
      if c {
        return false, sent;
      }
      ok, step := SendCommand("stop");
      sent := sent + step;
      assert !ok && step != [] ==> !sent[|warnings| + 1].ok;
    }

    /** Every warning in order; between two of them the context is checked again. */
    method SendWarnings(warnings: seq<string>) returns (ok: bool, ghost sent: seq<Step>)
      modifies this`log, this`checks
      ensures log == old(log) + sent
      ensures FollowsScript(sent, Warnings(warnings))
      ensures ok <==> CompletesScript(sent, Warnings(warnings))
    {
      ghost var step: seq<Step>;
      sent := [];
      for i := 0 to |warnings|
        invariant log == old(log) + sent && |sent| == i
        invariant forall k | 0 <= k < i :: sent[k] == Step(Warnings(warnings)[k], true)
      {
        var c := Cancelled();
        if c {
          return false, sent;
        }
        ok, step := SendCommand("say " + warnings[i]);
        sent := sent + step;
        if !ok {
          assert step != [] ==> !sent[i].ok;
          return false, sent;
        }
        if i < |warnings| - 1 {
          c := Cancelled();
          if c {
            return false, sent;
          }
        }
      }
      ok := true;
    }
  }
}
