/** Sealed datagrams: the challenge handshake and the 128-number replay window.
    HMAC and AEAD are symbolic: a tag or a ciphertext is the term that made it, so it
    verifies or opens only under the same key, nonce and associated data. */
module Security {
  import opened Bytes
  import opened Bits128

  type Key = nat

  /** A 16-byte session challenge. */
  type Challenge = nat

  /** The all-zero challenge: a hello carrying it asks for an echo. */
  const NO_ECHO: Challenge := 0

  const WINDOW: nat := 128

  datatype Tag = Mac(key: Key, local: Challenge, echo: Challenge) | BadTag(bytes: seq<byte>)

  datatype Cipher =
    | Sealed(key: Key, from: Challenge, number: nat, aad: Challenge, msg: seq<byte>)
    | Garbage(bytes: seq<byte>)

  /** What a UDP socket carries: anything without a known prefix is Raw. */
  datatype Datagram =
    | Raw(bytes: seq<byte>)
    | Hello(local: Challenge, echo: Challenge, tag: Tag)
    | Envelope(from: Challenge, number: nat, body: Cipher)

  datatype Incoming = Data(msg: seq<byte>) | Reply(answer: Datagram) | Ignore

  /** One end's state. */
  datatype Session = Session(
    key: Key,
    local: Challenge,
    remote: Option<Challenge>,
    tx: nat,
    high: Option<nat>,
    seen: Word)

  function Fresh(key: Key, local: Challenge): Session {
    Session(key, local, None, 0, None, 0)
  }

  function HelloFrom(s: Session, echo: Challenge): Datagram {
    Hello(s.local, echo, Mac(s.key, s.local, echo))
  }

  function Open(key: Key, from: Challenge, number: nat, aad: Challenge, body: Cipher): Option<seq<byte>> {
    if body.Sealed? && body.key == key && body.from == from && body.number == number && body.aad == aad
    then Some(body.msg)
    else None
  }

  function Seal(s: Session, msg: seq<byte>): (Session, Option<Datagram>) {
    if s.remote.None? || s.tx == U64 - 1 then (s, None)
    else (s.(tx := s.tx + 1), Some(Envelope(s.local, s.tx, Sealed(s.key, s.local, s.tx, s.remote.value, msg))))
  }

  /** The number is too old, or its bit is already set. */
  predicate Refused(s: Session, n: nat) {
    s.high.Some? && n <= s.high.value
    && (s.high.value - n >= WINDOW || Bit(s.seen, s.high.value - n))
  }

  function Slide(seen: Word, distance: nat): Word {
    if distance >= WINDOW then 1 else Or(Shl(seen, distance), 1)
  }

  function Mark(s: Session, n: nat): Session {
    match s.high
    case None => s.(high := Some(n), seen := 1)
    case Some(h) =>
      if n > h then s.(high := Some(n), seen := Slide(s.seen, n - h))
      else s.(seen := Or(s.seen, Shl(1, h - n)))
  }

  function Receive(s: Session, d: Datagram): (Session, Incoming) {
    match d
    case Raw(_) => (s, Ignore)
    case Hello(remote, echo, tag) =>
      if tag != Mac(s.key, remote, echo) then (s, Ignore)
      else if remote == s.local || (s.remote.Some? && s.remote.value != remote) then (s, Ignore)
      else if echo == NO_ECHO then (s, Reply(HelloFrom(s, remote)))
      else if echo != s.local || s.remote.Some? then (s, Ignore)
      else (s.(remote := Some(remote)), Reply(HelloFrom(s, remote)))
    case Envelope(from, n, body) =>
      if s.remote != Some(from) || Refused(s, n) then (s, Ignore)
      else
        match Open(s.key, from, n, s.local, body)
        case None => (s, Ignore)
        case Some(msg) => (Mark(s, n), Data(msg))
  }

  /** The source's object; `View` is its state as a value. */
  class DatagramSecurity {
    const key: Key
    const local: Challenge
    var remote: Option<Challenge>
    var tx: nat
    var high: Option<nat>
    var seen: Word

    ghost function View(): Session
      reads this
    {
      Session(key, local, remote, tx, high, seen)
    }

    constructor (key: Key, local: Challenge)
      ensures View() == Fresh(key, local)
    {
      this.key, this.local := key, local;
      remote, tx, high, seen := None, 0, None, 0;
    }

    predicate Ready()
      reads this
    {
      remote.Some?
    }

    method SayHello(echo: Challenge) returns (d: Datagram)
      ensures d == HelloFrom(View(), echo)
    {
      d := Hello(local, echo, Mac(key, local, echo));
    }

    method SealNext(msg: seq<byte>) returns (d: Option<Datagram>)
      modifies this
      ensures (View(), d) == Seal(old(View()), msg)
    {
      if remote.None? {
        return None;
      }
      var number := tx;
      if tx == U64 - 1 {
        return None;
      }
      tx := tx + 1;
      d := Some(Envelope(local, number, Sealed(key, local, number, remote.value, msg)));
    }

    method Take(d: Datagram) returns (r: Incoming)
      modifies this
      ensures (View(), r) == Receive(old(View()), d)
    {
      match d {
        case Raw(_) => r := Ignore;
        case Hello(from, echo, tag) => r := TakeHello(from, echo, tag);
        case Envelope(from, number, body) => r := TakeEnvelope(from, number, body);
      }
    }

    method TakeHello(from: Challenge, echo: Challenge, tag: Tag) returns (r: Incoming)
      modifies this
      ensures (View(), r) == Receive(old(View()), Hello(from, echo, tag))
    {
      if tag != Mac(key, from, echo) {
        return Ignore;
      }
      if from == local || (remote.Some? && remote.value != from) {
        return Ignore;
      }
      if echo == NO_ECHO {
        var h := SayHello(from);
        return Reply(h);
      }
      if echo != local {
        return Ignore;
      }
      if remote.None? {
        remote := Some(from);
        var h := SayHello(from);
        return Reply(h);
      }
      return Ignore;
    }

    method TakeEnvelope(from: Challenge, number: nat, body: Cipher) returns (r: Incoming)
      modifies this
      ensures (View(), r) == Receive(old(View()), Envelope(from, number, body))
    {
      if remote.None? || remote.value != from {
        return Ignore;
      }
      if high.Some? && number <= high.value {
        var d := high.value - number;
        if d >= WINDOW || !Zero(And(seen, Shl(1, d))) {
          return Ignore;
        }
      }
      var pt := Open(key, from, number, local, body);
      if pt.None? {
        return Ignore;
      }
      match high {
        case None =>
          high, seen := Some(number), 1;
        case Some(h) =>
          if number > h {
            seen := if number - h >= WINDOW then 1 else Or(Shl(seen, number - h), 1);
            high := Some(number);
          } else {
            seen := Or(seen, Shl(1, h - number));
          }
      }
      r := Data(pt.value);
    }
  }
}
