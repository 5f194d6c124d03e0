/** What one round of the supervisor does, by what it finds: whether a worker runs afterwards,
    when the next may start, and what the manager shows; and the manager by its history. */
module SupervisorRounds {
  import opened Bytes
  import opened Runtime
  import opened SupervisorSpec
  import opened SupervisorTheorems

  // ---------- what a round finds ----------

  /** The job file names a job of the role the supervisor was started for. */
  predicate Usable(fixed: Setting, r: Round) {
    r.loaded.Some? && r.loaded.value.server == fixed.server && r.loaded.value.owner == fixed.owner
  }

  predicate Changes(s: Supervisor, fixed: Setting, r: Round) {
    Usable(fixed, r) && s.current != r.loaded
  }

  predicate Enabled(fixed: Setting, r: Round) {
    Usable(fixed, r) && r.loaded.value.enabled
  }

  /** The worker of the unchanged job goes on. */
  predicate GoesOn(s: Supervisor, fixed: Setting, r: Round) {
    Usable(fixed, r) && s.current == r.loaded && s.child.Some? && r.running
  }

  /** The worker of the unchanged job has exited. */
  predicate Exited(s: Supervisor, fixed: Setting, r: Round) {
    Usable(fixed, r) && s.current == r.loaded && s.child.Some? && !r.running
  }

  /** It is time to start a worker: for a job that changed at once, else when the pause is over. */
  predicate Attempts(s: Supervisor, fixed: Setting, r: Round) {
    Enabled(fixed, r) && (Changes(s, fixed, r) || (s.child.None? && r.now >= s.retryAt))
  }

  /** The round needs a new lease. */
  predicate Renews(s: Supervisor, fixed: Setting, r: Round) {
    !Usable(fixed, r) || Attempts(s, fixed, r)
  }

  predicate Exhausted(s: Supervisor) {
    s.m.generation == 0xFFFF_FFFF_FFFF_FFFF
  }

  /** A worker starts. */
  predicate Starts(s: Supervisor, fixed: Setting, r: Round) {
    Attempts(s, fixed, r) && !Exhausted(s) && r.profileOk && r.spawned.Some?
  }

  // ---------- the pieces ----------

  function Heeding(s: Supervisor, r: Round): Supervisor {
    if r.stop then s.(m := RequestStop(s.m)) else s
  }

  lemma UnusableRound(s: Supervisor, fixed: Setting, r: Round)
    requires !Usable(fixed, r)
    ensures Iterate(s, fixed, r) == Unloadable(Heeding(s, r), fixed)
  {}

  lemma ChangedRound(s: Supervisor, fixed: Setting, r: Round)
    requires Changes(s, fixed, r)
    ensures Iterate(s, fixed, r)
         == var t := Adopt(Heeding(s, r), r.loaded.value, r.now);
            if Enabled(fixed, r) then Launch(t, fixed, r) else t
  {
    hide Launch, Transition, DropLease, RequestStop;
  }

  lemma SameRound(s: Supervisor, fixed: Setting, r: Round)
    requires Usable(fixed, r) && s.current == r.loaded && (s.child.Some? ==> Enabled(fixed, r))
    ensures Iterate(s, fixed, r)
         == var h := Heeding(s, r);
            if GoesOn(s, fixed, r) then (if fixed.server then Report(h, if r.ready then Serving else Starting, None) else h)
            else if Exited(s, fixed, r) then Lost(h, r.now)
            else if Attempts(s, fixed, r) then Launch(h, fixed, r)
            else h
  {
    hide Launch, Report, GiveUpLease, StopChild;
  }

  // ---------- a new lease ----------

  /** What `s` has after its lease was replaced: the next generation and nothing said yet. */
  ghost predicate Renewed(s: Supervisor, t: Supervisor, atBoot: bool) {
    && !t.failed && t.m.generation == s.m.generation + 1 && t.begun == s.begun + [t.m.generation]
    && t.m.leased && t.lease == Some(Lease(t.m.generation, t.m.token)) && t.m.token !in t.m.cancelled
    && t.m.startsAtBoot == atBoot
  }

  ghost predicate Untouched(s: Supervisor, t: Supervisor) {
    t.child == s.child && t.workers == s.workers && t.current == s.current
    && t.failures == s.failures && t.retryAt == s.retryAt && t.spawnedAt == s.spawnedAt
  }

  /** The last session's token is cancelled, and replaced by one that nobody holds. */
  predicate Retired(s: Supervisor, t: Supervisor) {
    s.m.token in t.m.cancelled && t.m.token == s.m.next
  }

  lemma RenewIs(s: Supervisor, atBoot: bool)
    requires Sound(s.m) && Held(s.m, s.lease) && !s.failed
    ensures var t := BeginLease(GiveUpLease(s), atBoot);
      && Untouched(s, t)
      && if Exhausted(s) then t.failed && t.begun == s.begun && t.m.generation == s.m.generation && t.lease.None? && Retired(s, t)
         else Renewed(s, t, atBoot)
  {}

  /** The held lease says so. */
  lemma SaidIs(s: Supervisor, p: Phase, e: Option<ErrorCode>)
    requires s.lease.Some? && MayPublish(s.m, s.lease.value)
    ensures Report(s, p, e) == s.(m := s.m.(phase := p, errorCode := e))
  {}

  /** What the manager shows. */
  predicate Shows(s: Supervisor, p: Phase, e: Option<ErrorCode>) {
    s.m.phase == p && s.m.errorCode == e
  }

  lemma LaunchIs(s: Supervisor, fixed: Setting, r: Round)
    requires Sound(s.m) && Held(s.m, s.lease) && !s.failed && s.child.None? && s.workers == {}
    ensures var t := Launch(s, fixed, r);
      && t.current == s.current && t.failures == s.failures
      && if Exhausted(s) then t.failed && t.child.None? && t.workers == {} && t.begun == s.begun && t.retryAt == s.retryAt && Retired(s, t)
         else Renewed(s, t, fixed.startsAtBoot)
              && if r.profileOk && r.spawned.Some?
                 then t.child == r.spawned && t.workers == {r.spawned.value} && t.retryAt == s.retryAt
                      && t.spawnedAt == Some(r.now) && Shows(t, Joining, None)
                 else t.child.None? && t.workers == {} && t.retryAt == r.now + 5
                      && t.spawnedAt == s.spawnedAt && Shows(t, Error, Some(SessionFailed))
  {
    RenewIs(s, fixed.startsAtBoot);
    hide GiveUpLease, BeginLease;
    var t := BeginLease(GiveUpLease(s), fixed.startsAtBoot);
    if !t.failed {
      SaidIs(t, Joining, None);
      SaidIs(t, Error, Some(SessionFailed));
      hide Report;
    }
  }

  lemma UnloadableIs(s: Supervisor, fixed: Setting)
    requires Sound(s.m) && Held(s.m, s.lease) && !s.failed && Workers(s)
    ensures var t := Unloadable(s, fixed);
      && t.child.None? && t.workers == {} && t.failures == s.failures && t.retryAt == s.retryAt
      && if Exhausted(s) then t.failed && t.begun == s.begun && Retired(s, t)
         else Renewed(s, t, fixed.startsAtBoot) && t.current.None? && t.spawnedAt.None? && Shows(t, Error, Some(SessionFailed))
  {
    var a := StopChild(s);
    RenewIs(a, fixed.startsAtBoot);
    hide GiveUpLease, BeginLease;
    var t := BeginLease(GiveUpLease(a), fixed.startsAtBoot);
    if !t.failed {
      SaidIs(t, Error, Some(SessionFailed));
      hide Report;
    }
  }

  /** Another job: the old worker and lease go, and the session shows Stopped unless it failed
      and can no longer say so. */
  lemma AdoptIs(s: Supervisor, job: Job, now: Time)
    requires Session(s) && Workers(s) && !s.failed && s.current != Some(job)
    ensures var t := Adopt(s, job, now);
      && Sound(t.m) && Held(t.m, t.lease) && !t.failed && t.lease.None?
      && t.child.None? && t.workers == {} && t.current == Some(job) && t.failures == 0
      && t.retryAt == now && t.spawnedAt.None?
      && t.begun == s.begun && t.m.generation == s.m.generation && t.m.startsAtBoot == s.m.startsAtBoot
      && t.m.token == s.m.token && t.m.next == s.m.next
      && (s.lease.Some? && MayPublish(s.m, s.lease.value) ==> Shows(t, Stopped, None))
      && (s.lease.Some? && !MayPublish(s.m, s.lease.value) ==>
            Shows(t, if s.m.phase.Error? then Error else Stopped, s.m.errorCode))
      && (s.lease.None? ==> Shows(t, s.m.phase, s.m.errorCode))
  {}

  lemma LostIs(s: Supervisor, now: Time)
    requires Session(s) && Workers(s) && s.child.Some? && s.failures < U32
    ensures var t := Lost(s, now);
      && t.child.None? && t.workers == {} && t.current == s.current && t.spawnedAt == s.spawnedAt
      && t.failures == Least(s.failures + 1, 0xFFFF_FFFF)
      && t.retryAt == now + Least(30, Power(Least(t.failures, 5)))
      && t.begun == s.begun && t.lease == s.lease && t.failed == s.failed
      && t.m.generation == s.m.generation && t.m.startsAtBoot == s.m.startsAtBoot
      && (if MayPublish(s.m, s.lease.value) then Shows(t, Reconnecting, Some(NetworkUnavailable))
          else Shows(t, s.m.phase, s.m.errorCode))
  {
    DelayMeans(if s.failures == U32 - 1 then s.failures else s.failures + 1);
  }

  function Least(a: nat, b: nat): nat { if a <= b then a else b }

  function Power(n: nat): nat { if n == 0 then 1 else 2 * Power(n - 1) }

  /** The pause doubles with every failure, up to 30 seconds. */
  lemma DelayMeans(failures: nat)
    ensures Delay(failures) == Least(30, Power(Least(failures, 5)))
  {
    assert Power(1) == 2 && Power(2) == 4 && Power(3) == 8 && Power(4) == 16 && Power(5) == 32;
  }

  // ---------- rounds ----------

  /** Which worker there is after a round: the one just started, the one that goes on, or none. */
  ghost predicate WorkerAfter(s: Supervisor, fixed: Setting, r: Round, t: Supervisor) {
    && t.child == (if Starts(s, fixed, r) then r.spawned else if GoesOn(s, fixed, r) then s.child else None)
    && t.workers == (if t.child.Some? then {t.child.value} else {})
    && (t.failed <==> Renews(s, fixed, r) && Exhausted(s))
    && (t.failed ==> Retired(s, t))
    && (Usable(fixed, r) ==> t.current == r.loaded)
    && (!Usable(fixed, r) && !t.failed ==> t.current.None?)
  }

  /** When the next may start: at once for a job that changed, after a pause that doubles with
      every exit and is at most 30 seconds, or 5 seconds after an attempt that failed. */
  ghost predicate PaceAfter(s: Supervisor, fixed: Setting, r: Round, t: Supervisor) {
    && t.failures == (if Changes(s, fixed, r) then 0
                      else if Exited(s, fixed, r) then Least(s.failures + 1, 0xFFFF_FFFF) else s.failures)
    && (!t.failed ==>
      && t.retryAt == (if Attempts(s, fixed, r) && !Starts(s, fixed, r) then r.now + 5
                       else if Changes(s, fixed, r) then r.now
                       else if Exited(s, fixed, r) then r.now + Least(30, Power(Least(t.failures, 5)))
                       else s.retryAt)
      && t.spawnedAt == (if Starts(s, fixed, r) then Some(r.now)
                         else if !Usable(fixed, r) || Changes(s, fixed, r) then None else s.spawnedAt))
  }

  /** The lease held may still say something. */
  predicate Speaks(s: Supervisor, r: Round) {
    s.lease.Some? && !r.stop && s.lease.value.token !in s.m.cancelled
  }

  /** The generations used, and what the manager shows. */
  ghost predicate StatusAfter(s: Supervisor, fixed: Setting, r: Round, t: Supervisor) {
    !t.failed ==>
      && t.m.generation == s.m.generation + (if Renews(s, fixed, r) then 1 else 0)
      && t.begun == (if Renews(s, fixed, r) then s.begun + [t.m.generation] else s.begun)
      && t.m.startsAtBoot == (if Renews(s, fixed, r) then fixed.startsAtBoot else s.m.startsAtBoot && !r.stop)
      && (t.lease.Some? <==> Renews(s, fixed, r) || (!Changes(s, fixed, r) && s.lease.Some?))
      && (if Starts(s, fixed, r) then Shows(t, Joining, None)
          else if Renews(s, fixed, r) then Shows(t, Error, Some(SessionFailed))
          else if Speaks(s, r) && Changes(s, fixed, r) then Shows(t, Stopped, None)
          else if Speaks(s, r) && Exited(s, fixed, r) then Shows(t, Reconnecting, Some(NetworkUnavailable))
          else if Speaks(s, r) && GoesOn(s, fixed, r) && fixed.server then
            Shows(t, if r.ready then Serving else Starting, None)
          else if Changes(s, fixed, r) && s.lease.Some? then
            Shows(t, if s.m.phase.Error? then Error else Stopped, s.m.errorCode)
          else Shows(t, s.m.phase, s.m.errorCode))
  }

  /** Every round, from every state the supervisor can be in. */
  lemma RoundTheorem(s: Supervisor, fixed: Setting, r: Round, before: Time)
    requires Inv(s, before) && before <= r.now && !s.failed && s.failures < U32
    ensures var t := Iterate(s, fixed, r);
      WorkerAfter(s, fixed, r, t) && PaceAfter(s, fixed, r, t) && StatusAfter(s, fixed, r, t)
  {
    if !Usable(fixed, r) {
      UnusableTheorem(s, fixed, r);
    } else if s.current != r.loaded {
      ChangedTheorem(s, fixed, r);
    } else {
      SameRoundTheorem(s, fixed, r);
    }
    hide *;
  }

  lemma UnusableTheorem(s: Supervisor, fixed: Setting, r: Round)
    requires Session(s) && Workers(s) && !s.failed && !Usable(fixed, r)
    ensures var t := Iterate(s, fixed, r);
      WorkerAfter(s, fixed, r, t) && PaceAfter(s, fixed, r, t) && StatusAfter(s, fixed, r, t)
  {
    HeedingSame(s, r);
    hide Session, Iterate, Unloadable, Workers, Sound, Held;
    UnusableRound(s, fixed, r);
    UnloadableIs(Heeding(s, r), fixed);
  }

  lemma ChangedTheorem(s: Supervisor, fixed: Setting, r: Round)
    requires Session(s) && Workers(s) && !s.failed && Changes(s, fixed, r)
    ensures var t := Iterate(s, fixed, r);
      WorkerAfter(s, fixed, r, t) && PaceAfter(s, fixed, r, t) && StatusAfter(s, fixed, r, t)
  {
    hide *;
    ChangedWorker(s, fixed, r);
    ChangedPace(s, fixed, r);
    ChangedStatus(s, fixed, r);
  }

  lemma ChangedWorker(s: Supervisor, fixed: Setting, r: Round)
    requires Session(s) && Workers(s) && !s.failed && Changes(s, fixed, r)
    ensures WorkerAfter(s, fixed, r, Iterate(s, fixed, r))
  {
    HeedingSame(s, r);
    hide Session, Iterate, Adopt, Launch, Workers, Sound, Held, Heeding, Power;
    ChangedRound(s, fixed, r);
    AdoptIs(Heeding(s, r), r.loaded.value, r.now);
    LaunchIs(Adopt(Heeding(s, r), r.loaded.value, r.now), fixed, r);
  }

  lemma ChangedPace(s: Supervisor, fixed: Setting, r: Round)
    requires Session(s) && Workers(s) && !s.failed && Changes(s, fixed, r)
    ensures PaceAfter(s, fixed, r, Iterate(s, fixed, r))
  {
    HeedingSame(s, r);
    hide Session, Iterate, Adopt, Launch, Workers, Sound, Held, Heeding, Power;
    ChangedRound(s, fixed, r);
    AdoptIs(Heeding(s, r), r.loaded.value, r.now);
    LaunchIs(Adopt(Heeding(s, r), r.loaded.value, r.now), fixed, r);
  }

  lemma ChangedStatus(s: Supervisor, fixed: Setting, r: Round)
    requires Session(s) && Workers(s) && !s.failed && Changes(s, fixed, r)
    ensures StatusAfter(s, fixed, r, Iterate(s, fixed, r))
  {
    HeedingSame(s, r);
    hide Session, Iterate, Adopt, Launch, Workers, Sound, Held, Heeding, Power;
    ChangedRound(s, fixed, r);
    AdoptIs(Heeding(s, r), r.loaded.value, r.now);
    LaunchIs(Adopt(Heeding(s, r), r.loaded.value, r.now), fixed, r);
  }

  lemma SameRoundTheorem(s: Supervisor, fixed: Setting, r: Round)
    requires Session(s) && Workers(s) && !s.failed && s.failures < U32
    requires Usable(fixed, r) && s.current == r.loaded
    ensures var t := Iterate(s, fixed, r);
      WorkerAfter(s, fixed, r, t) && PaceAfter(s, fixed, r, t) && StatusAfter(s, fixed, r, t)
  {
    if Exited(s, fixed, r) {
      ExitedTheorem(s, fixed, r);
    } else if Attempts(s, fixed, r) {
      DueTheorem(s, fixed, r);
    } else {
      IdleTheorem(s, fixed, r);
    }
    hide *;
  }

  lemma ExitedTheorem(s: Supervisor, fixed: Setting, r: Round)
    requires Session(s) && Workers(s) && !s.failed && s.failures < U32 && Exited(s, fixed, r)
    ensures var t := Iterate(s, fixed, r);
      WorkerAfter(s, fixed, r, t) && PaceAfter(s, fixed, r, t) && StatusAfter(s, fixed, r, t)
  {
    HeedingSame(s, r);
    hide Session, Iterate, Adopt, Lost, Launch, Unloadable, Report, Power, Sound;
    SameRound(s, fixed, r);
    LostIs(Heeding(s, r), r.now);
  }

  lemma DueTheorem(s: Supervisor, fixed: Setting, r: Round)
    requires Session(s) && Workers(s) && !s.failed && s.current == r.loaded && Attempts(s, fixed, r)
    ensures var t := Iterate(s, fixed, r);
      WorkerAfter(s, fixed, r, t) && PaceAfter(s, fixed, r, t) && StatusAfter(s, fixed, r, t)
  {
    HeedingSame(s, r);
    SoundHeeding(s, r);
    hide Session, Iterate, Adopt, Lost, Launch, Unloadable, Report, Power, Sound, Held;
    SameRound(s, fixed, r);
    LaunchIs(Heeding(s, r), fixed, r);
  }

  lemma IdleTheorem(s: Supervisor, fixed: Setting, r: Round)
    requires Session(s) && Workers(s) && !s.failed && Usable(fixed, r) && s.current == r.loaded
    requires !Exited(s, fixed, r) && !Attempts(s, fixed, r)
    ensures var t := Iterate(s, fixed, r);
      WorkerAfter(s, fixed, r, t) && PaceAfter(s, fixed, r, t) && StatusAfter(s, fixed, r, t)
  {
    HeedingSame(s, r);
    hide Session, Iterate, Adopt, Lost, Launch, Unloadable, Report, Power, Sound;
    SameRound(s, fixed, r);
    if GoesOn(s, fixed, r) {
      ReportIs(Heeding(s, r), if r.ready then Serving else Starting);
    }
  }

  lemma SoundHeeding(s: Supervisor, r: Round)
    requires Session(s)
    ensures Sound(Heeding(s, r).m)
  {}

  lemma HeedingSame(s: Supervisor, r: Round)
    requires Session(s) && Workers(s)
    ensures var h := Heeding(s, r);
      && Session(h) && Workers(h) && Sound(h.m) && Held(h.m, h.lease) && h == s.(m := h.m)
      && h.m.generation == s.m.generation && h.m.token == s.m.token && h.m.next == s.m.next && Shows(h, s.m.phase, s.m.errorCode)
      && h.m.startsAtBoot == (s.m.startsAtBoot && !r.stop)
      && (s.lease.Some? ==> (MayPublish(h.m, h.lease.value) <==> !r.stop && s.lease.value.token !in s.m.cancelled))
  {}

  lemma ReportIs(s: Supervisor, p: Phase)
    requires s.lease.Some? && Held(s.m, s.lease)
    ensures var t := Report(s, p, None);
      && Untouched(s, t) && t.lease == s.lease && t.begun == s.begun && t.failed == s.failed
      && t.m.generation == s.m.generation && t.m.startsAtBoot == s.m.startsAtBoot
      && (if MayPublish(s.m, s.lease.value) then Shows(t, p, None) else Shows(t, s.m.phase, s.m.errorCode))
  {}

  // ---------- runs ----------

  /** Where a supervisor begins: one lease, nothing running, nothing to wait for. */
  lemma Beginning(m: Manager, fixed: Setting, now: Time)
    requires Sound(m) && Idle(m)
    ensures var s := Initial(m, fixed, now);
      && s.child.None? && s.workers == {} && s.current.None? && s.failures == 0 && s.retryAt == now && s.spawnedAt.None?
      && (s.failed <==> m.generation == 0xFFFF_FFFF_FFFF_FFFF)
      && (!s.failed ==>
            && s.m.generation == m.generation + 1 && s.begun == [m.generation + 1]
            && s.lease.Some? && Shows(s, Stopped, None) && s.m.startsAtBoot == fixed.startsAtBoot)
  {}

  /** So it is in every round of every run. */
  lemma {:induction false} EveryRound(m: Manager, fixed: Setting, now: Time, rounds: seq<Round>)
    requires Sound(m) && Idle(m) && InOrder(now, rounds)
    ensures Rounds(Initial(m, fixed, now), fixed, rounds).failures < U32
    ensures rounds != [] ==>
      var (before, r) := (rounds[..|rounds| - 1], rounds[|rounds| - 1]);
      var s := Rounds(Initial(m, fixed, now), fixed, before);
      var t := Rounds(Initial(m, fixed, now), fixed, rounds);
      if s.failed then t == s
      else WorkerAfter(s, fixed, r, t) && PaceAfter(s, fixed, r, t) && StatusAfter(s, fixed, r, t)
  {
    if rounds == [] {
      Beginning(m, fixed, now);
    } else {
      var (before, r) := (rounds[..|rounds| - 1], rounds[|rounds| - 1]);
      EveryRound(m, fixed, now, before);
      RoundsKeep(m, fixed, now, before);
      var s := Rounds(Initial(m, fixed, now), fixed, before);
      if !s.failed {
        hide Initial, Inv, Iterate, WorkerAfter, StatusAfter;
        RoundTheorem(s, fixed, r, LastTime(now, before));
      }
    }
  }

  /** A job that is enabled and can be spawned has a worker again half a minute later at most. */
  lemma WorkerReturns(s: Supervisor, fixed: Setting, r: Round, before: Time)
    requires Inv(s, before) && !s.failed && s.failures < U32 && before + 30 <= r.now
    requires Enabled(fixed, r) && r.profileOk && r.spawned.Some? && !Exhausted(s)
    ensures Iterate(s, fixed, r).child.Some? <==> !Exited(s, fixed, r)
  {
    RoundTheorem(s, fixed, r, before);
    hide Iterate, PaceAfter, StatusAfter;
  }

  /** When no generation is left the supervisor ends there and then, without a last word. */
  lemma RefusalEnds(m: Manager, fixed: Setting, now: Time, rounds: seq<Round>, more: seq<Round>)
    requires Rounds(Initial(m, fixed, now), fixed, rounds).failed
    ensures Supervised(m, fixed, now, rounds + more) == Rounds(Initial(m, fixed, now), fixed, rounds)
  {
    NothingMore(Initial(m, fixed, now), fixed, rounds, more);
  }

  lemma {:induction false} NothingMore(s: Supervisor, fixed: Setting, rounds: seq<Round>, more: seq<Round>)
    requires Rounds(s, fixed, rounds).failed
    ensures Rounds(s, fixed, rounds + more) == Rounds(s, fixed, rounds)
    decreases |more|
  {
    if more == [] {
      assert rounds + more == rounds;
    } else {
      var (all, less) := (rounds + more, more[..|more| - 1]);
      assert all[..|all| - 1] == rounds + less;
      NothingMore(s, fixed, rounds, less);
    }
  }

  /** A normal end asks the manager to stop: nothing starts at boot, and the session's token is
      cancelled. */
  lemma EndTheorem(s: Supervisor, now: Time)
    requires Inv(s, now) && !s.failed
    ensures var t := Finish(s);
      !t.m.startsAtBoot && t.m.token in t.m.cancelled && t.m.generation == s.m.generation
  {}

  // ---------- the manager by its history ----------

  /** A call: leases are named by the order in which they were granted. */
  datatype Call =
    | Begins(atBoot: bool)
    | Stops
    | Says(i: nat, p: Phase, e: Option<ErrorCode>)
    | Gives(i: nat)

  /** The manager and the leases it granted. */
  datatype Served = Served(m: Manager, leases: seq<Lease>)

  function Serve(x: Served, c: Call): Served {
    match c
    case Begins(atBoot) =>
      var (m, l) := Begin(x.m, atBoot);
      Served(m, if l.Some? then x.leases + [l.value] else x.leases)
    case Stops => x.(m := RequestStop(x.m))
    case Says(i, p, e) => if i < |x.leases| then x.(m := Transition(x.m, x.leases[i], p, e)) else x
    case Gives(i) => if i < |x.leases| then x.(m := DropLease(x.m, x.leases[i])) else x
  }

  /** What matters of the history: how many leases were granted, whether the last is out and
      may still speak, and what was said. */
  datatype Story = Story(granted: nat, out: bool, speaks: bool, phase: Phase, error: Option<ErrorCode>, boot: bool)

  function Tell(y: Story, c: Call): Story {
    match c
    case Begins(atBoot) =>
      if y.out then y
      else if y.granted == 0xFFFF_FFFF_FFFF_FFFF then y.(speaks := false)
      else Story(y.granted + 1, true, true, Starting, None, atBoot)
    case Stops => y.(speaks := false, boot := false)
    case Says(i, p, e) => if i + 1 == y.granted && y.speaks then y.(phase := p, error := e) else y
    case Gives(i) =>
      if i + 1 != y.granted then y
      else y.(out := false, speaks := false, phase := if y.phase.Error? || y.phase.Revoked? then y.phase else Stopped)
  }

  function ServeAll(calls: seq<Call>): Served {
    if calls == [] then Served(NewManager(), []) else Serve(ServeAll(calls[..|calls| - 1]), calls[|calls| - 1])
  }

  function TellAll(calls: seq<Call>): Story {
    if calls == [] then Story(0, false, false, Stopped, None, false)
    else Tell(TellAll(calls[..|calls| - 1]), calls[|calls| - 1])
  }

  /** The last lease's token is the manager's, no lease shares another's; all but the last, and
      the last unless it speaks, are cancelled. */
  ghost predicate Follows(x: Served, y: Story) {
    && Sound(x.m) && |x.leases| == y.granted == x.m.generation
    && x.m.leased == y.out && x.m.phase == y.phase && x.m.errorCode == y.error && x.m.startsAtBoot == y.boot
    && (forall i | 0 <= i < |x.leases| :: x.leases[i].generation == i + 1 && x.leases[i].token < x.m.next)
    && (y.speaks ==> y.granted > 0 && y.out && x.leases[y.granted - 1].token == x.m.token)
    && (y.out ==> y.granted > 0 && x.leases[y.granted - 1].token == x.m.token)
    && (forall i | 0 <= i < |x.leases| :: x.leases[i].token in x.m.cancelled <==> i + 1 < y.granted || !y.speaks)
    && (forall i, j | 0 <= i < j < |x.leases| :: x.leases[i].token < x.leases[j].token)
    && (|x.leases| > 0 ==> x.leases[|x.leases| - 1].token <= x.m.token)
  }

  lemma ServeFollows(x: Served, y: Story, c: Call)
    requires Follows(x, y)
    ensures Follows(Serve(x, c), Tell(y, c))
  {
    hide *;
    match c {
      case Begins(atBoot) => BeginFollows(x, y, atBoot);
      case Stops => StopFollows(x, y);
      case Says(i, p, e) => SayFollows(x, y, i, p, e);
      case Gives(i) => GiveFollows(x, y, i);
    }
  }

  lemma BeginFollows(x: Served, y: Story, atBoot: bool)
    requires Follows(x, y)
    ensures Follows(Serve(x, Begins(atBoot)), Tell(y, Begins(atBoot)))
  {}

  lemma StopFollows(x: Served, y: Story)
    requires Follows(x, y)
    ensures Follows(Serve(x, Stops), Tell(y, Stops))
  {
    assert |x.leases| > 0 && !y.speaks ==> x.leases[|x.leases| - 1].token in x.m.cancelled;
  }

  lemma SayFollows(x: Served, y: Story, i: nat, p: Phase, e: Option<ErrorCode>)
    requires Follows(x, y)
    ensures Follows(Serve(x, Says(i, p, e)), Tell(y, Says(i, p, e)))
  {}

  lemma GiveFollows(x: Served, y: Story, i: nat)
    requires Follows(x, y)
    ensures Follows(Serve(x, Gives(i)), Tell(y, Gives(i)))
  {}

  /** Over every sequence of calls the manager is what its history says: the generation counts
      the leases granted, only the last can be out or speak, it can until it is given back or a
      stop is requested, and the phase shown is the last one said. */
  lemma {:induction false} ManagerTheorem(calls: seq<Call>)
    ensures Follows(ServeAll(calls), TellAll(calls))
  {
    if calls != [] {
      ManagerTheorem(calls[..|calls| - 1]);
      ServeFollows(ServeAll(calls[..|calls| - 1]), TellAll(calls[..|calls| - 1]), calls[|calls| - 1]);
    }
  }
}
