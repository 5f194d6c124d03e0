/** The session lifecycle: at most one lease at a time, and a generation per lease. */
module Runtime {
  import opened Bytes

  datatype Phase =
    | Stopped
    | Starting
    | WaitingNetwork
    | AuthRequired
    | Joining
    | Connected
    | Serving
    | Degraded
    | Reconnecting
    | Revoked
    | Error

  datatype ErrorCode =
    | NetworkUnavailable
    | AuthenticationRequired
    | MembershipRevoked
    | HelperUnavailable
    | SessionFailed

  /** A session lease; `token` stands for its cancellation token. */
  datatype Lease = Lease(generation: nat, token: nat)

  /** The manager's state, with the cancelled tokens and the number of the next one. */
  datatype Manager = Manager(
    leased: bool,
    generation: nat,
    phase: Phase,
    startsAtBoot: bool,
    errorCode: Option<ErrorCode>,
    token: nat,
    cancelled: set<nat>,
    next: nat)

  function NewManager(): Manager {
    Manager(false, 0, Stopped, false, None, 0, {}, 1)
  }

  /** Refused while a lease is out; the token is renewed before the generation can run out. */
  function Begin(m: Manager, startsAtBoot: bool): (Manager, Option<Lease>) {
    if m.leased then (m, None)
    else
      var n := m.(cancelled := m.cancelled + {m.token}, token := m.next, next := m.next + 1);
      if m.generation == U64 - 1 then (n, None)
      else
        (n.(leased := true, generation := m.generation + 1, phase := Starting,
            startsAtBoot := startsAtBoot, errorCode := None),
         Some(Lease(m.generation + 1, m.next)))
  }

  function RequestStop(m: Manager): Manager {
    m.(startsAtBoot := false, cancelled := m.cancelled + {m.token})
  }

  /** A cancelled or replaced lease publishes nothing. */
  predicate MayPublish(m: Manager, l: Lease) {
    m.generation == l.generation && l.token !in m.cancelled
  }

  function Transition(m: Manager, l: Lease, phase: Phase, error: Option<ErrorCode>): Manager {
    if MayPublish(m, l) then m.(phase := phase, errorCode := error) else m
  }

  predicate Terminal(p: Phase) {
    p.Error? || p.Revoked?
  }

  function DropLease(m: Manager, l: Lease): Manager {
    var n := m.(cancelled := m.cancelled + {l.token});
    if m.generation != l.generation then n
    else n.(leased := false, phase := if Terminal(m.phase) then m.phase else Stopped)
  }

  class SessionManager {
    var leased: bool
    var generation: nat
    var phase: Phase
    var startsAtBoot: bool
    var errorCode: Option<ErrorCode>
    var token: nat
    var cancelled: set<nat>
    var next: nat

    ghost function View(): Manager
      reads this
    {
      Manager(leased, generation, phase, startsAtBoot, errorCode, token, cancelled, next)
    }

    constructor ()
      ensures View() == NewManager()
    {
      leased, generation, phase, startsAtBoot, errorCode := false, 0, Stopped, false, None;
      token, cancelled, next := 0, {}, 1;
    }

    method BeginSession(atBoot: bool) returns (l: Option<Lease>)
      modifies this
      ensures (View(), l) == Begin(old(View()), atBoot)
    {
      if leased {
        return None;
      }
      cancelled := cancelled + {token};
      token := next;
      next := next + 1;
      if generation == U64 - 1 {
        return None;
      }
      generation := generation + 1;
      leased := true;
      phase := Starting;
      startsAtBoot := atBoot;
      errorCode := None;
      l := Some(Lease(generation, token));
    }

    method Stop()
      modifies this
      ensures View() == RequestStop(old(View()))
    {
      startsAtBoot := false;
      cancelled := cancelled + {token};
    }

    method Publish(l: Lease, p: Phase, error: Option<ErrorCode>) returns (ok: bool)
      modifies this
      ensures ok == MayPublish(old(View()), l) && View() == Transition(old(View()), l, p, error)
    {
      if generation != l.generation || l.token in cancelled {
        return false;
      }
      phase := p;
      errorCode := error;
      ok := true;
    }

    method Release(l: Lease)
      modifies this
      ensures View() == DropLease(old(View()), l)
    {
      cancelled := cancelled + {l.token};
      if generation == l.generation {
        leased := false;
        if !phase.Error? && !phase.Revoked? {
          phase := Stopped;
        }
      }
    }
  }
}
