/** One round of the profile supervisor, and its run from start to shutdown. What the round
    finds outside (the job file, the worker, the profile, the clock) is its input. */
module SupervisorSpec {
  import opened Bytes
  import opened Runtime

  datatype Job = Job(enabled: bool, server: bool, owner: Option<string>, profile: string, config: string)

  type Time = int

  /** `stop`: someone else asked the manager to stop. `loaded`: the job file, if it parses.
      `running`: the worker has not exited. `spawned`: the process a spawn yields, if any. */
  datatype Round = Round(now: Time, stop: bool, loaded: Option<Job>, running: bool, ready: bool,
                         profileOk: bool, spawned: Option<nat>)

  /** `workers` holds the processes started and not yet stopped; `failed` is set when `begin`
      refused and the supervisor returned an error. `begun` and `spawnedAt` are history. */
  datatype Supervisor = Supervisor(
    m: Manager,
    lease: Option<Lease>,
    child: Option<nat>,
    current: Option<Job>,
    failures: nat,
    retryAt: Time,
    workers: set<nat>,
    failed: bool,
    begun: seq<nat>,
    spawnedAt: Option<Time>)

  /** What stays fixed while it runs. */
  datatype Setting = Setting(server: bool, owner: Option<string>, startsAtBoot: bool)

  function StopChild(s: Supervisor): Supervisor {
    if s.child.None? then s else s.(child := None, workers := s.workers - {s.child.value})
  }

  function Report(s: Supervisor, p: Phase, error: Option<ErrorCode>): Supervisor {
    if s.lease.None? then s else s.(m := Transition(s.m, s.lease.value, p, error))
  }

  function GiveUpLease(s: Supervisor): Supervisor {
    if s.lease.None? then s else s.(m := DropLease(s.m, s.lease.value), lease := None)
  }

  /** `manager.begin(..)?`: a refusal ends the supervisor. */
  function BeginLease(s: Supervisor, atBoot: bool): Supervisor {
    var (m, l) := Begin(s.m, atBoot);
    if l.None? then s.(m := m, failed := true)
    else s.(m := m, lease := l, begun := s.begun + [l.value.generation])
  }

  /** `(1 << failures.min(5)).min(30)` */
  function Delay(failures: nat): nat {
    if failures == 0 then 1
    else if failures == 1 then 2
    else if failures == 2 then 4
    else if failures == 3 then 8
    else if failures == 4 then 16
    else 30
  }

  /** The job, unless it changed role. */
  function Desired(loaded: Option<Job>, fixed: Setting): Option<Job> {
    if loaded.Some? && loaded.value.server == fixed.server && loaded.value.owner == fixed.owner then loaded else None
  }

  function Unloadable(s: Supervisor, fixed: Setting): Supervisor {
    var t := BeginLease(GiveUpLease(StopChild(s)), fixed.startsAtBoot);
    if t.failed then t else Report(t, Error, Some(SessionFailed)).(current := None, spawnedAt := None)
  }

  function Adopt(s: Supervisor, job: Job, now: Time): Supervisor {
    if s.current == Some(job) then s
    else GiveUpLease(Report(StopChild(s), Stopped, None))
      .(failures := 0, retryAt := now, current := Some(job), spawnedAt := None)
  }

  function Lost(s: Supervisor, now: Time): Supervisor {
    var failures := if s.failures == U32 - 1 then s.failures else s.failures + 1;
    Report(StopChild(s), Reconnecting, Some(NetworkUnavailable)).(failures := failures, retryAt := now + Delay(failures))
  }

  function Launch(s: Supervisor, fixed: Setting, r: Round): Supervisor {
    var t := BeginLease(GiveUpLease(s), fixed.startsAtBoot);
    if t.failed then t
    else if !r.profileOk || r.spawned.None? then Report(t, Error, Some(SessionFailed)).(retryAt := r.now + 5)
    else
      Report(t, Joining, None).(child := r.spawned, workers := t.workers + {r.spawned.value}, spawnedAt := Some(r.now))
  }

  function Iterate(s0: Supervisor, fixed: Setting, r: Round): Supervisor {
    var s := if r.stop then s0.(m := RequestStop(s0.m)) else s0;
    match Desired(r.loaded, fixed)
    case None => Unloadable(s, fixed)
    case Some(job) =>
      var t := Adopt(s, job, r.now);
      if !job.enabled then t
      else if t.child.Some? && r.running then
        if fixed.server then Report(t, if r.ready then Serving else Starting, None) else t
      else
        var u := if t.child.Some? then Lost(t, r.now) else t;
        if r.now < u.retryAt then u else Launch(u, fixed, r)
  }

  function Initial(m: Manager, fixed: Setting, now: Time): Supervisor {
    Report(BeginLease(Supervisor(m, None, None, None, 0, now, {}, false, [], None), fixed.startsAtBoot), Stopped, None)
  }

  /** The rounds up to shutdown, or to the first refusal. */
  function Rounds(s: Supervisor, fixed: Setting, rounds: seq<Round>): Supervisor {
    if rounds == [] then s
    else
      var t := Rounds(s, fixed, rounds[..|rounds| - 1]);
      if t.failed then t else Iterate(t, fixed, rounds[|rounds| - 1])
  }

  function Finish(s: Supervisor): Supervisor {
    var t := Report(StopChild(s), Stopped, None);
    GiveUpLease(t.(m := RequestStop(t.m)))
  }

  function Supervised(m: Manager, fixed: Setting, now: Time, rounds: seq<Round>): Supervisor {
    var s := Rounds(Initial(m, fixed, now), fixed, rounds);
    if s.failed then s else Finish(s)
  }
}
