/** The supervisor's loop, on the manager it shares with its caller. */
module Supervision {
  import opened Bytes
  import opened Runtime
  import opened SupervisorSpec

  /** The variables of the loop. */
  class Loop {
    const manager: SessionManager
    var lease: Option<Lease>
    var child: Option<nat>
    var current: Option<Job>
    var failures: nat
    var retryAt: Time
    var workers: set<nat>
    var failed: bool
    ghost var begun: seq<nat>
    ghost var spawnedAt: Option<Time>

    ghost function View(): Supervisor
      reads this, manager
    {
      Supervisor(manager.View(), lease, child, current, failures, retryAt, workers, failed, begun, spawnedAt)
    }

    constructor (manager: SessionManager, now: Time)
      ensures this.manager == manager && unchanged(manager)
      ensures View() == Supervisor(manager.View(), None, None, None, 0, now, {}, false, [], None)
    {
      this.manager := manager;
      lease, child, current, failures, retryAt := None, None, None, 0, now;
      workers, failed, begun, spawnedAt := {}, false, [], None;
    }

    method StopWorker()
      modifies this
      ensures View() == StopChild(old(View()))
    {
      if child.Some? {
        workers := workers - {child.value};
        child := None;
      }
    }

    method Tell(p: Phase, error: Option<ErrorCode>)
      modifies manager
      ensures View() == Report(old(View()), p, error)
    {
      if lease.Some? {
        var _ := manager.Publish(lease.value, p, error);
      }
    }

    method DropHeld()
      modifies this, manager
      ensures View() == GiveUpLease(old(View()))
    {
      if lease.Some? {
        var held := lease.value;
        lease := None;
        manager.Release(held);
      }
    }

    method Acquire(atBoot: bool)
      modifies this, manager
      ensures View() == BeginLease(old(View()), atBoot)
    {
      var active := manager.BeginSession(atBoot);
      if active.None? {
        failed := true;
      } else {
        lease := active;
        begun := begun + [active.value.generation];
      }
    }

    method HandleUnloadable(fixed: Setting)
      modifies this, manager
      ensures View() == Unloadable(old(View()), fixed)
    {
      StopWorker();
      DropHeld();
      Acquire(fixed.startsAtBoot);
      if failed {
        return;
      }
      Tell(Error, Some(SessionFailed));
      current := None;
      spawnedAt := None;
    }

    method AdoptJob(job: Job, now: Time)
      modifies this, manager
      ensures View() == Adopt(old(View()), job, now)
    {
      if current != Some(job) {
        StopWorker();
        Tell(Stopped, None);
        DropHeld();
        failures, retryAt, current, spawnedAt := 0, now, Some(job), None;
      }
    }

    method HandleLost(now: Time)
      modifies this, manager
      ensures View() == Lost(old(View()), now)
    {
      StopWorker();
      Tell(Reconnecting, Some(NetworkUnavailable));
      failures := if failures == U32 - 1 then failures else failures + 1;
      retryAt := now + Delay(failures);
    }

    method LaunchWorker(fixed: Setting, r: Round)
      modifies this, manager
      ensures View() == Launch(old(View()), fixed, r)
    {
      DropHeld();
      Acquire(fixed.startsAtBoot);
      if failed {
        return;
      }
      if !r.profileOk {
        Tell(Error, Some(SessionFailed));
        retryAt := r.now + 5;
        return;
      }
      match r.spawned {
        case Some(process) =>
          child := Some(process);
          workers := workers + {process};
          spawnedAt := Some(r.now);
          Tell(Joining, None);
        case None =>
          Tell(Error, Some(SessionFailed));
          retryAt := r.now + 5;
      }
    }

    method OneRound(fixed: Setting, r: Round)
      modifies this, manager
      ensures View() == Iterate(old(View()), fixed, r)
    {
      if r.stop {
        manager.Stop();
      }
      var desired := Desired(r.loaded, fixed);
      if desired.None? {
        HandleUnloadable(fixed);
        return;
      }
      var job := desired.value;
      AdoptJob(job, r.now);
      if !job.enabled {
        return;
      }
      if child.Some? {
        if r.running {
          if fixed.server {
            Tell(if r.ready then Serving else Starting, None);
          }
          return;
        }
        HandleLost(r.now);
      }
      if r.now < retryAt {
        return;
      }
      LaunchWorker(fixed, r);
    }
  }

  /** Runs until shutdown, which comes after the given rounds, or until `begin` refuses. */
  method Supervise(manager: SessionManager, fixed: Setting, now: Time, rounds: seq<Round>) returns (loop: Loop)
    modifies manager
    ensures fresh(loop) && loop.manager == manager
    ensures loop.View() == Supervised(old(manager.View()), fixed, now, rounds)
  {
    loop := new Loop(manager, now);
    loop.Acquire(fixed.startsAtBoot);
    if loop.failed {
      FailedStays(loop.View(), fixed, rounds);
      return;
    }
    loop.Tell(Stopped, None);
    var i := 0;
    while i < |rounds| && !loop.failed
      invariant i <= |rounds|
      invariant loop.manager == manager && fresh(loop)
      invariant loop.View() == Rounds(Initial(old(manager.View()), fixed, now), fixed, rounds[..i])
    {
      assert rounds[..i + 1][..i] == rounds[..i];
      loop.OneRound(fixed, rounds[i]);
      i := i + 1;
    }
    assert rounds[..i] + rounds[i..] == rounds && rounds[..|rounds|] == rounds;
    if loop.failed {
      FailedAfter(Initial(old(manager.View()), fixed, now), fixed, rounds, i);
      return;
    }
    loop.StopWorker();
    loop.Tell(Stopped, None);
    manager.Stop();
    loop.DropHeld();
  }

  lemma {:induction false} FailedStays(s: Supervisor, fixed: Setting, rounds: seq<Round>)
    requires s.failed
    ensures Rounds(s, fixed, rounds) == s
  {
    if rounds != [] {
      FailedStays(s, fixed, rounds[..|rounds| - 1]);
    }
  }

  lemma {:induction false} FailedAfter(s: Supervisor, fixed: Setting, rounds: seq<Round>, i: nat)
    requires i <= |rounds| && Rounds(s, fixed, rounds[..i]).failed
    ensures Rounds(s, fixed, rounds) == Rounds(s, fixed, rounds[..i])
    decreases |rounds|
  {
    if i < |rounds| {
      var shorter := rounds[..|rounds| - 1];
      assert shorter[..i] == rounds[..i];
      FailedAfter(s, fixed, shorter, i);
    } else {
      assert rounds[..i] == rounds;
    }
  }
}
