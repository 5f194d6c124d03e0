/** The supervisor over every run: one worker, one lease, growing generations, and what is
    left when it returns. */
module SupervisorTheorems {
  import opened Bytes
  import opened Runtime
  import opened SupervisorSpec

  // ---------- the manager ----------

  ghost predicate Sound(m: Manager) {
    && m.token < m.next && m.generation < U64
    && (forall t | t in m.cancelled :: t < m.next)
  }

  /** The lease is the one the manager has out. */
  ghost predicate Held(m: Manager, l: Option<Lease>) {
    && m.leased == l.Some?
    && (l.Some? ==> l.value.generation == m.generation && l.value.token == m.token)
  }

  /** No lease is out, and the last one left it stopped or failed. */
  ghost predicate Idle(m: Manager) {
    !m.leased && (m.phase.Stopped? || m.phase.Error?)
  }

  /** Whatever happens to a manager, at most one lease can publish: a new one is refused while
      the old is out, and has a token and a generation of its own once it is not. */
  lemma BeginTheorem(m: Manager, atBoot: bool, before: Lease)
    requires Sound(m) && before.generation <= m.generation && before.token < m.next
    ensures var (n, l) := Begin(m, atBoot);
      && Sound(n) && (l.Some? <==> !m.leased && m.generation < U64 - 1)
      && (l.Some? ==> MayPublish(n, l.value) && l.value.generation == m.generation + 1 && Held(n, l)
                      && !MayPublish(n, before)
                      && (forall p, e :: Transition(n, before, p, e) == n)
                      && DropLease(n, before).leased && DropLease(n, before).phase == n.phase)
  {}

  // ---------- the invariant ----------

  ghost predicate Increasing(g: seq<nat>) {
    forall i, j | 0 <= i < j < |g| :: g[i] < g[j]
  }

  ghost predicate Workers(s: Supervisor) {
    && s.workers == (if s.child.Some? then {s.child.value} else {})
    && (s.child.Some? ==> s.current.Some? && s.current.value.enabled && s.lease.Some?)
  }

  ghost predicate Session(s: Supervisor) {
    && Sound(s.m) && Held(s.m, s.lease) && !s.m.phase.Revoked?
    && (s.lease.None? && !s.failed ==> Idle(s.m))
    && Increasing(s.begun) && (forall g | g in s.begun :: g <= s.m.generation)
    && (s.failed ==> s.child.None? && s.m.generation == U64 - 1)
  }

  /** A restart waits at least 2 and at most 30 seconds. */
  ghost predicate Paced(s: Supervisor, now: Time) {
    && s.retryAt <= now + 30
    && (!s.failed && s.spawnedAt.Some? ==>
          s.spawnedAt.value <= now && (s.child.Some? || s.retryAt >= s.spawnedAt.value + 2))
  }

  ghost predicate Inv(s: Supervisor, now: Time) {
    Workers(s) && Session(s) && Paced(s, now)
  }

  // ---------- every piece keeps it ----------

  lemma StopChildKeeps(s: Supervisor)
    requires Workers(s) && Session(s)
    ensures Workers(StopChild(s)) && Session(StopChild(s)) && StopChild(s).child.None?
  {}

  lemma ReportKeeps(s: Supervisor, p: Phase, e: Option<ErrorCode>)
    requires Workers(s) && Session(s) && !p.Revoked?
    ensures Workers(Report(s, p, e)) && Session(Report(s, p, e))
  {}

  lemma GiveUpKeeps(s: Supervisor)
    requires Workers(s) && Session(s) && s.child.None?
    ensures Workers(GiveUpLease(s)) && Session(GiveUpLease(s)) && GiveUpLease(s).lease.None?
  {}

  lemma BeginKeeps(s: Supervisor, atBoot: bool)
    requires Workers(s) && Session(s) && s.child.None? && s.lease.None?
    ensures var t := BeginLease(s, atBoot);
      Workers(t) && Session(t) && (t.failed || t.lease.Some?)
  {
    var t := BeginLease(s, atBoot);
    if !t.failed && t.lease.Some? {
      forall g | g in t.begun ensures g <= t.m.generation {
        assert g in s.begun || g == t.m.generation;
      }
      forall i | 0 <= i < |s.begun| ensures s.begun[i] < t.m.generation {
        assert s.begun[i] in s.begun;
      }
    }
  }

  lemma StopRequestKeeps(s: Supervisor)
    requires Workers(s) && Session(s)
    ensures Workers(s.(m := RequestStop(s.m))) && Session(s.(m := RequestStop(s.m)))
  {}

  lemma UnloadableKeeps(s: Supervisor, fixed: Setting, before: Time, now: Time)
    requires Inv(s, before) && before <= now
    ensures Inv(Unloadable(s, fixed), now)
  {
    var a := StopChild(s);
    var b := GiveUpLease(a);
    var c := BeginLease(b, fixed.startsAtBoot);
    hide Session;
    StopChildKeeps(s);
    GiveUpKeeps(a);
    BeginKeeps(b, fixed.startsAtBoot);
    ReportKeeps(c, Error, Some(SessionFailed));
    Forgotten(Report(c, Error, Some(SessionFailed)));
  }

  lemma Forgotten(s: Supervisor)
    requires Session(s)
    ensures Session(s.(current := None, spawnedAt := None))
  {}

  lemma AdoptKeeps(s: Supervisor, job: Job, before: Time, now: Time)
    requires Inv(s, before) && before <= now
    ensures Inv(Adopt(s, job, now), now) && Adopt(s, job, now).current == Some(job)
    ensures s.current == Some(job) || Adopt(s, job, now).child.None?
    ensures Adopt(s, job, now).failed == s.failed
  {
    if s.current != Some(job) {
      var a := StopChild(s);
      var b := Report(a, Stopped, None);
      var c := GiveUpLease(b);
      StopChildKeeps(s);
      ReportKeeps(a, Stopped, None);
      GiveUpKeeps(b);
      hide StopChild, Report, GiveUpLease;
      assert Inv(c.(failures := 0, retryAt := now, current := Some(job), spawnedAt := None), now);
    }
  }

  lemma LostKeeps(s: Supervisor, before: Time, now: Time)
    requires Inv(s, before) && before <= now && s.child.Some?
    ensures Inv(Lost(s, now), now) && Lost(s, now).child.None? && Lost(s, now).current == s.current
    ensures now + 2 <= Lost(s, now).retryAt <= now + 30
    ensures Lost(s, now).failed == s.failed
  {}

  lemma LaunchKeeps(s: Supervisor, fixed: Setting, r: Round)
    requires Inv(s, r.now) && s.child.None? && s.current.Some? && s.current.value.enabled && s.retryAt <= r.now
    ensures Inv(Launch(s, fixed, r), r.now)
  {
    var a := GiveUpLease(s);
    var b := BeginLease(a, fixed.startsAtBoot);
    GiveUpKeeps(s);
    BeginKeeps(a, fixed.startsAtBoot);
    ReportKeeps(b, Error, Some(SessionFailed));
    ReportKeeps(b, Joining, None);
    var c := Report(b, Error, Some(SessionFailed));
    var d := Report(b, Joining, None);
    LaunchedSession(d, r.spawned, r.now);
    LaunchedSession(c, None, r.now);
  }

  lemma LaunchedSession(s: Supervisor, child: Option<nat>, now: Time)
    requires Session(s)
    ensures !s.failed ==> forall w, t :: Session(s.(child := child, workers := w, spawnedAt := t))
    ensures forall t :: Session(s.(retryAt := t))
  {}

  lemma IterateKeeps(s: Supervisor, fixed: Setting, r: Round, before: Time)
    requires Inv(s, before) && before <= r.now && !s.failed
    ensures Inv(Iterate(s, fixed, r), r.now)
  {
    StopRequestKeeps(s);
    var s1 := if r.stop then s.(m := RequestStop(s.m)) else s;
    assert Inv(s1, before);
    hide Workers, Session;
    match Desired(r.loaded, fixed) {
      case None => UnloadableKeeps(s1, fixed, before, r.now);
      case Some(job) =>
        AdoptKeeps(s1, job, before, r.now);
        var t := Adopt(s1, job, r.now);
        hide Adopt, Launch;
        if job.enabled {
          if t.child.Some? && r.running {
            ReportKeeps(t, if r.ready then Serving else Starting, None);
          } else {
            if t.child.Some? {
              LostKeeps(t, r.now, r.now);
            }
            var u := if t.child.Some? then Lost(t, r.now) else t;
            hide Lost;
            if r.now >= u.retryAt {
              LaunchKeeps(u, fixed, r);
            }
          }
        }
    }
  }

  // ---------- runs ----------

  ghost predicate InOrder(now: Time, rounds: seq<Round>) {
    && (forall i | 0 <= i < |rounds| :: now <= rounds[i].now)
    && (forall i, j | 0 <= i < j < |rounds| :: rounds[i].now <= rounds[j].now)
  }

  function LastTime(now: Time, rounds: seq<Round>): Time {
    if rounds == [] then now else rounds[|rounds| - 1].now
  }

  lemma InitialKeeps(m: Manager, fixed: Setting, now: Time)
    requires Sound(m) && Idle(m)
    ensures Inv(Initial(m, fixed, now), now)
  {}

  lemma {:induction false} RoundsKeep(m: Manager, fixed: Setting, now: Time, rounds: seq<Round>)
    requires Sound(m) && Idle(m) && InOrder(now, rounds)
    ensures Inv(Rounds(Initial(m, fixed, now), fixed, rounds), LastTime(now, rounds))
  {
    if rounds == [] {
      InitialKeeps(m, fixed, now);
    } else {
      var shorter := rounds[..|rounds| - 1];
      RoundsKeep(m, fixed, now, shorter);
      var t := Rounds(Initial(m, fixed, now), fixed, shorter);
      hide Initial, Workers, Session;
      if !t.failed {
        hide Iterate;
        IterateKeeps(t, fixed, rounds[|rounds| - 1], LastTime(now, shorter));
      }
    }
  }

  // ---------- the theorems ----------

  /** In every run: at most one worker, and only while an enabled job is current and the
      manager's one lease is held; generations strictly increase; `begin` is refused only when
      they are exhausted; and restarts of an unchanged job are 2 to 30 seconds away. */
  lemma SupervisorTheorem(m: Manager, fixed: Setting, now: Time, rounds: seq<Round>)
    requires Sound(m) && Idle(m) && InOrder(now, rounds)
    ensures var s := Rounds(Initial(m, fixed, now), fixed, rounds);
      && |s.workers| <= 1
      && (s.workers != {} ==> s.current.Some? && s.current.value.enabled && s.lease.Some? && Held(s.m, s.lease))
      && Increasing(s.begun)
      && (s.failed ==> s.workers == {} && s.m.generation == U64 - 1 && !s.m.leased)
      && s.retryAt <= LastTime(now, rounds) + 30
      && (!s.failed && s.spawnedAt.Some? && s.child.None? ==> s.retryAt >= s.spawnedAt.value + 2)
  {
    RoundsKeep(m, fixed, now, rounds);
    var s := Rounds(Initial(m, fixed, now), fixed, rounds);
    hide Initial, Rounds;
    if s.failed {
      FailedUnleased(m, fixed, now, rounds);
    }
  }

  lemma {:induction false} FailedUnleased(m: Manager, fixed: Setting, now: Time, rounds: seq<Round>)
    requires Rounds(Initial(m, fixed, now), fixed, rounds).failed
    requires Sound(m) && Idle(m) && InOrder(now, rounds)
    ensures Rounds(Initial(m, fixed, now), fixed, rounds).lease.None?
    ensures !Rounds(Initial(m, fixed, now), fixed, rounds).m.leased
  {
    RoundsKeep(m, fixed, now, rounds);
    if rounds != [] {
      var shorter := rounds[..|rounds| - 1];
      var t := Rounds(Initial(m, fixed, now), fixed, shorter);
      if t.failed {
        FailedUnleased(m, fixed, now, shorter);
      } else {
        hide Initial, Workers, Session;
        RefusedAlone(t, fixed, rounds[|rounds| - 1]);
      }
    }
  }

  lemma RefusedAlone(s: Supervisor, fixed: Setting, r: Round)
    requires !s.failed && Iterate(s, fixed, r).failed
    ensures Iterate(s, fixed, r).lease.None?
  {
    hide Transition, DropLease, Begin, RequestStop, Delay;
  }

  /** A worker that replaces one of the same job starts at least two seconds after it. */
  lemma RestartsApart(s: Supervisor, fixed: Setting, r: Round, before: Time)
    requires Inv(s, before) && before <= r.now && !s.failed && s.spawnedAt.Some?
    requires var t := Iterate(s, fixed, r);
      t.current == s.current && t.child.Some? && (s.child.None? || !r.running)
    ensures r.now >= s.spawnedAt.value + 2
  {
    hide Session, Begin, Transition, DropLease, RequestStop, Launch;
    var s1 := if r.stop then s.(m := RequestStop(s.m)) else s;
    var job := Desired(r.loaded, fixed);
    if job.Some? && job == s.current {
      assert Adopt(s1, job.value, r.now) == s1;
    }
    if job.Some? {
      var t := Adopt(s1, job.value, r.now);
      LaunchCurrent(t, fixed, r);
      LaunchCurrent(Lost(t, r.now), fixed, r);
    }
  }

  lemma LaunchCurrent(s: Supervisor, fixed: Setting, r: Round)
    ensures Launch(s, fixed, r).current == s.current
  {}

  /** A normal return leaves no worker and no lease. Its phase is Stopped except when the
      session had failed and someone else had already asked it to stop: then the last report
      is suppressed and the failure stays. */
  lemma ReturnTheorem(s: Supervisor, now: Time)
    requires Inv(s, now) && !s.failed
    ensures var t := Finish(s);
      && t.workers == {} && t.child.None? && t.lease.None? && !t.m.leased
      && (t.m.phase == Stopped
          <==> !(s.m.phase.Error? && (s.lease.None? || s.lease.value.token in s.m.cancelled)))
  {}

  /** Nobody asked it to stop, so its lease can still publish. */
  ghost predicate Quiet(s: Supervisor) {
    if s.lease.Some? then s.lease.value.token !in s.m.cancelled else s.m.phase.Stopped? || s.failed
  }

  lemma IterateQuiet(s: Supervisor, fixed: Setting, r: Round, before: Time)
    requires Inv(s, before) && !s.failed && Quiet(s) && !r.stop
    ensures Quiet(Iterate(s, fixed, r))
  {
    hide Workers, Paced, Unloadable, Launch, Adopt, Lost;
    match Desired(r.loaded, fixed) {
      case None => UnloadableQuiet(s, fixed);
      case Some(job) =>
        var t := Adopt(s, job, r.now);
        AdoptQuiet(s, job, r.now);
        hide Session;
        if job.enabled && !(t.child.Some? && r.running) {
          LostQuiet(t, r.now);
          LaunchQuiet(if t.child.Some? then Lost(t, r.now) else t, fixed, r);
        }
    }
  }

  lemma UnloadableQuiet(s: Supervisor, fixed: Setting)
    requires Sound(s.m) && Held(s.m, s.lease)
    ensures Quiet(Unloadable(s, fixed))
  {}

  lemma LaunchQuiet(s: Supervisor, fixed: Setting, r: Round)
    requires Sound(s.m) && Held(s.m, s.lease)
    ensures Quiet(Launch(s, fixed, r))
  {}

  lemma AdoptQuiet(s: Supervisor, job: Job, now: Time)
    requires Session(s) && !s.failed && Quiet(s)
    ensures var t := Adopt(s, job, now); Quiet(t) && Sound(t.m) && Held(t.m, t.lease) && !t.failed
  {}

  lemma LostQuiet(s: Supervisor, now: Time)
    requires Quiet(s) && Sound(s.m) && Held(s.m, s.lease) && !s.failed
    ensures var t := Lost(s, now); Quiet(t) && Sound(t.m) && Held(t.m, t.lease) && !t.failed
  {}

  lemma {:induction false} RoundsQuiet(m: Manager, fixed: Setting, now: Time, rounds: seq<Round>)
    requires Sound(m) && Idle(m) && InOrder(now, rounds)
    requires forall i | 0 <= i < |rounds| :: !rounds[i].stop
    ensures Quiet(Rounds(Initial(m, fixed, now), fixed, rounds))
  {
    if rounds != [] {
      var shorter := rounds[..|rounds| - 1];
      RoundsKeep(m, fixed, now, shorter);
      RoundsQuiet(m, fixed, now, shorter);
      var t := Rounds(Initial(m, fixed, now), fixed, shorter);
      hide Initial, Quiet, Inv;
      if !t.failed {
        hide Iterate;
        IterateQuiet(t, fixed, rounds[|rounds| - 1], LastTime(now, shorter));
      }
    }
  }

  /** Unless someone else asked the manager to stop, a normal return leaves phase Stopped. */
  lemma StoppedTheorem(m: Manager, fixed: Setting, now: Time, rounds: seq<Round>)
    requires Sound(m) && Idle(m) && InOrder(now, rounds)
    requires forall i | 0 <= i < |rounds| :: !rounds[i].stop
    ensures var t := Supervised(m, fixed, now, rounds);
      && t.workers == {} && !t.m.leased
      && (!t.failed ==> t.m.phase == Stopped)
  {
    RoundsKeep(m, fixed, now, rounds);
    RoundsQuiet(m, fixed, now, rounds);
    SupervisorTheorem(m, fixed, now, rounds);
    var s := Rounds(Initial(m, fixed, now), fixed, rounds);
    hide Initial, Rounds;
  }

  /** A stop request that arrives while the job file cannot be read leaves phase Error behind. */
  lemma StopWhileFailed()
    ensures var fixed := Setting(false, None, false);
      var unreadable := Round(0, false, None, false, false, false, None);
      var stopped := Round(0, true, Some(Job(false, false, None, "p", "c")), false, false, false, None);
      var t := Supervised(NewManager(), fixed, 0, [unreadable, stopped]);
      !t.failed && t.m.phase == Error
  {
    var fixed := Setting(false, None, false);
    var a := Round(0, false, None, false, false, false, None);
    var b := Round(0, true, Some(Job(false, false, None, "p", "c")), false, false, false, None);
    assert [a, b][..1] == [a] && [a][..0] == [];
    var s0 := Initial(NewManager(), fixed, 0);
    var s1 := Iterate(s0, fixed, a);
    assert !s0.failed && !s1.failed && s1.m.phase == Error && s1.lease.Some? && s1.lease.value.token == s1.m.token;
    var s2 := Iterate(s1, fixed, b);
    assert Rounds(s0, fixed, [a]) == s1;
    assert Rounds(s0, fixed, [a, b]) == s2;
  }
}
