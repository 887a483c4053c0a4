/** The main process's module-level state and the handlers that change it: the list of
    stress workers (started, stopped, and pruned by each worker's exit event), the
    monitoring interval (started, stopped, and stopped by a failing tick), the IPC
    handlers for starting and stopping the stress test, and the window-close teardown.
    Everything runs on the one event loop, so each handler is one atomic step here. */
module MainProcess {
  import opened JsValues
  import opened Telemetry

  /** A `Worker` handle; `new Worker(...)` always yields a handle never seen before. */
  type WorkerId = nat
  /** A `setInterval` handle; likewise fresh on every call. */
  type TimerId = nat

  predicate Distinct(s: seq<WorkerId>)
  {
    forall i, j :: 0 <= i < j < |s| ==> s[i] != s[j]
  }

  /** The handles of `count` workers created one after another, the first getting `first`. */
  function SpawnIds(first: nat, count: nat): (r: seq<WorkerId>)
    ensures |r| == count
    ensures forall k :: 0 <= k < count ==> r[k] == first + k
  {
    if count == 0 then [] else SpawnIds(first, count - 1) + [first + count - 1]
  }

  /** `s.filter(w => w !== worker)`: identity comparison on handles. */
  function Without(s: seq<WorkerId>, worker: WorkerId): (r: seq<WorkerId>)
    ensures forall x :: x in r <==> x in s && x != worker
    ensures worker !in s ==> r == s
    ensures |r| <= |s|
  {
    if s == [] then []
    else if s[0] == worker then Without(s[1..], worker)
    else [s[0]] + Without(s[1..], worker)
  }

  /** In a list of distinct handles, an exit removes exactly the exiting worker and keeps
      the others in their order. */
  lemma {:induction false} WithoutRemovesExactlyOne(s: seq<WorkerId>, i: nat)
    requires Distinct(s) && i < |s|
    ensures Without(s, s[i]) == s[..i] + s[i + 1..]
  {
    if i == 0 {
      assert s[0] !in s[1..];
      assert s[..0] + s[1..] == s[1..];
    } else {
      var tail := s[1..];
      assert Distinct(tail);
      assert tail[i - 1] == s[i];
      WithoutRemovesExactlyOne(tail, i - 1);
      assert s[..i] + s[i + 1..] == [s[0]] + (tail[..i - 1] + tail[i..]);
    }
  }

  lemma {:induction false} WithoutKeepsDistinct(s: seq<WorkerId>, worker: WorkerId)
    requires Distinct(s)
    ensures Distinct(Without(s, worker))
  {
    if s != [] {
      var tail := s[1..];
      assert Distinct(tail);
      WithoutKeepsDistinct(tail, worker);
      if s[0] != worker {
        var rest := Without(tail, worker);
        assert s[0] !in tail;
        assert s[0] !in rest;
        var r := [s[0]] + rest;
        forall i, j | 0 <= i < j < |r| ensures r[i] != r[j] {
          if i == 0 {
            assert r[j] == rest[j - 1];
          } else {
            assert r[i] == rest[i - 1] && r[j] == rest[j - 1];
          }
        }
      }
    }
  }

  /** The free text of an IPC reply, which names the requested thread count. */
  datatype Message = StartedWith(threads: ParsedInt) | StressStopped

  /** The `{ success, message }` object the `start-stress` and `stop-stress` handlers return. */
  datatype IpcReply = IpcReply(success: bool, message: Message)

  function TimerSet(t: Option<TimerId>): set<TimerId>
  {
    if t.Some? then {t.value} else {}
  }

  class MainProcess {
    /** `stressWorkers`, in spawn order. */
    var stressWorkers: seq<WorkerId>
    /** The handle the next `new Worker(...)` returns. */
    var nextWorker: nat
    /** `monitorInterval`: `None` is `null`, i.e. the monitor is idle. */
    var monitorInterval: Option<TimerId>
    /** The handle the next `setInterval` returns. */
    var nextTimer: nat
    /** Whether `mainWindow` has been assigned. */
    var hasWindow: bool

    /** Every `worker.terminate()` call made, in order. */
    ghost var terminateCalls: seq<WorkerId>
    /** Every worker whose `exit` event has been handled. */
    ghost var exited: set<WorkerId>
    /** Every interval passed to `clearInterval`. */
    ghost var cleared: set<TimerId>

    /** Nothing leaks: every worker ever created is still tracked, or has been terminated,
        or has exited, and a tracked worker is neither; every interval ever created is
        cleared except the current one. */
    ghost predicate Valid()
      reads this
    {
      && Distinct(stressWorkers)
      && (forall i :: 0 <= i < |stressWorkers| ==> stressWorkers[i] < nextWorker)
      && (forall i :: 0 <= i < |terminateCalls| ==> terminateCalls[i] < nextWorker)
      && (forall w :: w in exited ==> w < nextWorker)
      && (forall w :: w in stressWorkers ==> w !in terminateCalls && w !in exited)
      && (forall w: WorkerId :: w < nextWorker ==> w in stressWorkers || w in terminateCalls || w in exited)
      && (forall t :: t in cleared ==> t < nextTimer)
      && (monitorInterval.Some? ==> monitorInterval.value < nextTimer && monitorInterval.value !in cleared)
      && (forall t: TimerId :: t < nextTimer && t !in TimerSet(monitorInterval) ==> t in cleared)
    }

    /** The worker fields are as they were. */
    twostate predicate PoolUnchanged()
      reads this
    {
      && stressWorkers == old(stressWorkers) && nextWorker == old(nextWorker)
      && terminateCalls == old(terminateCalls) && exited == old(exited)
    }

    /** The monitor and window fields are as they were. */
    twostate predicate MonitorUnchanged()
      reads this
    {
      && monitorInterval == old(monitorInterval) && nextTimer == old(nextTimer)
      && cleared == old(cleared) && hasWindow == old(hasWindow)
    }

    /** The state at module load: no workers, monitor idle, no window yet. */
    constructor ()
      ensures Valid()
      ensures stressWorkers == [] && monitorInterval == None && !hasWindow
      ensures terminateCalls == [] && exited == {} && cleared == {}
    {
      stressWorkers, nextWorker := [], 0;
      monitorInterval, nextTimer := None, 0;
      hasWindow := false;
      terminateCalls, exited, cleared := [], {}, {};
    }

    /** `createWindow` assigns `mainWindow`; the window itself is not modelled. */
    method CreateWindow()
      requires Valid()
      modifies this
      ensures Valid() && hasWindow
      ensures PoolUnchanged()
      ensures monitorInterval == old(monitorInterval) && nextTimer == old(nextTimer) && cleared == old(cleared)
    {
      hasWindow := true;
    }

    /** `startStressTest(numThreads)`: a no-op while workers are tracked; otherwise one
        fresh worker per pass of `for (i = 0; i < numThreads; i++)`, appended in order. */
    method StartStressTest(numThreads: ParsedInt)
      requires Valid()
      modifies this
      ensures Valid() && MonitorUnchanged()
      ensures old(stressWorkers) != [] ==> PoolUnchanged()
      ensures old(stressWorkers) == [] ==>
        && stressWorkers == SpawnIds(old(nextWorker), Iterations(numThreads))
        && nextWorker == old(nextWorker) + Iterations(numThreads)
        && terminateCalls == old(terminateCalls) && exited == old(exited)
    {
      if |stressWorkers| > 0 {
        return;
      }
      var i := 0;
      while LessThan(i, numThreads)
        invariant 0 <= i <= Iterations(numThreads)
        invariant nextWorker == old(nextWorker) + i
        invariant stressWorkers == SpawnIds(old(nextWorker), i)
        invariant terminateCalls == old(terminateCalls) && exited == old(exited)
        invariant Valid() && MonitorUnchanged()
        decreases Iterations(numThreads) - i
      {
        var worker := nextWorker;
        nextWorker := nextWorker + 1;
        stressWorkers := stressWorkers + [worker];
        i := i + 1;
      }
    }

    /** `stopStressTest()`: a no-op when no worker is tracked; otherwise terminates every
        tracked worker, in order, and then forgets them all. */
    method StopStressTest()
      requires Valid()
      modifies this
      ensures Valid() && MonitorUnchanged()
      ensures stressWorkers == [] && nextWorker == old(nextWorker) && exited == old(exited)
      ensures terminateCalls == old(terminateCalls) + old(stressWorkers)
    {
      if |stressWorkers| == 0 {
        return;
      }
      var i := 0;
      while i < |stressWorkers|
        invariant 0 <= i <= |stressWorkers|
        invariant terminateCalls == old(terminateCalls) + stressWorkers[..i]
        invariant stressWorkers == old(stressWorkers) && nextWorker == old(nextWorker) && exited == old(exited)
        invariant MonitorUnchanged()
      {
        terminateCalls := terminateCalls + [stressWorkers[i]];
        i := i + 1;
      }
      assert stressWorkers[..i] == old(stressWorkers);
      stressWorkers := [];
    }

    /** A worker's `exit` event: drop that worker from the list, whatever its exit code.
        Only created workers have an exit handler. */
    method OnWorkerExit(worker: WorkerId)
      requires Valid() && worker < nextWorker
      modifies this
      ensures Valid() && MonitorUnchanged()
      ensures stressWorkers == Without(old(stressWorkers), worker)
      ensures nextWorker == old(nextWorker) && terminateCalls == old(terminateCalls)
      ensures exited == old(exited) + {worker}
    {
      WithoutKeepsDistinct(stressWorkers, worker);
      var remaining := Without(stressWorkers, worker);
      assert forall i :: 0 <= i < |remaining| ==> remaining[i] in stressWorkers;
      stressWorkers := remaining;
      exited := exited + {worker};
    }

    /** `startMonitoring()`: a no-op while an interval is set; otherwise sets a fresh one. */
    method StartMonitoring()
      requires Valid()
      modifies this
      ensures Valid() && PoolUnchanged()
      ensures hasWindow == old(hasWindow) && cleared == old(cleared)
      ensures old(monitorInterval).Some? ==> monitorInterval == old(monitorInterval) && nextTimer == old(nextTimer)
      ensures old(monitorInterval).None? ==> monitorInterval == Some(old(nextTimer)) && nextTimer == old(nextTimer) + 1
    {
      if monitorInterval.Some? {
        return;
      }
      monitorInterval := Some(nextTimer);
      nextTimer := nextTimer + 1;
    }

    /** `stopMonitoring()`: clears the interval if one is set; always ends idle. */
    method StopMonitoring()
      requires Valid()
      modifies this
      ensures Valid() && PoolUnchanged()
      ensures monitorInterval == None && nextTimer == old(nextTimer) && hasWindow == old(hasWindow)
      ensures cleared == old(cleared) + TimerSet(old(monitorInterval))
    {
      if monitorInterval.Some? {
        cleared := cleared + {monitorInterval.value};
        monitorInterval := None;
      }
    }

    /** One run of the interval callback, given what the three queries did. A tick that
        throws stops the monitor; otherwise the snapshot is sent if the window exists.
        A tick can still be finishing after the interval was cleared, so no state is
        demanded of the caller. */
    method Tick(q: Queries) returns (sent: Option<Snapshot>)
      requires Valid()
      modifies this
      ensures Valid() && PoolUnchanged()
      ensures Sample(q).None? ==>
        && sent == None && monitorInterval == None
        && cleared == old(cleared) + TimerSet(old(monitorInterval))
      ensures Sample(q).Some? ==>
        && MonitorUnchanged()
        && sent == (if hasWindow then Sample(q) else None)
      ensures nextTimer == old(nextTimer) && hasWindow == old(hasWindow)
    {
      var data := Sample(q);
      if data.None? {
        StopMonitoring();
        sent := None;
      } else if hasWindow {
        sent := data;
      } else {
        sent := None;
      }
    }

    /** The `start-stress` IPC handler: always reports success, even when the start was a no-op. */
    method HandleStartStress(numThreads: ParsedInt) returns (reply: IpcReply)
      requires Valid()
      modifies this
      ensures Valid() && MonitorUnchanged()
      ensures reply == IpcReply(true, StartedWith(numThreads))
      ensures stressWorkers ==
        if old(stressWorkers) == [] then SpawnIds(old(nextWorker), Iterations(numThreads)) else old(stressWorkers)
      ensures terminateCalls == old(terminateCalls) && exited == old(exited)
    {
      StartStressTest(numThreads);
      reply := IpcReply(true, StartedWith(numThreads));
    }

    /** The `stop-stress` IPC handler: always reports success, even when the stop was a no-op. */
    method HandleStopStress() returns (reply: IpcReply)
      requires Valid()
      modifies this
      ensures Valid() && MonitorUnchanged()
      ensures reply == IpcReply(true, StressStopped)
      ensures stressWorkers == [] && terminateCalls == old(terminateCalls) + old(stressWorkers)
      ensures exited == old(exited)
    {
      StopStressTest();
      reply := IpcReply(true, StressStopped);
    }

    /** The window's `close` event: stops the stress test and the monitor together. */
    method OnWindowClose()
      requires Valid()
      modifies this
      ensures Valid()
      ensures stressWorkers == [] && terminateCalls == old(terminateCalls) + old(stressWorkers)
      ensures monitorInterval == None && cleared == old(cleared) + TimerSet(old(monitorInterval))
      ensures exited == old(exited) && hasWindow == old(hasWindow)
    {
      StopStressTest();
      StopMonitoring();
    }
  }
}
