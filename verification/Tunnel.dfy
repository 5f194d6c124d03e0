/** The tunnel's framing: a 4-byte length and the payload, extracted from an accumulator that
    is filled in arbitrary pieces. */
module Tunnel {
  import opened Bytes

  const MAX_FRAME: nat := 0x10_0000

  datatype Taken = NeedMore | Frame(data: seq<byte>) | TooLarge

  datatype PumpDone = Conn | Session

  /** Everything taken so far, what is left over, and whether a length was out of range. */
  datatype Decoder = Decoder(frames: seq<seq<byte>>, rest: seq<byte>, broken: bool)

  function EncodeFrame(data: seq<byte>): seq<byte> {
    PutU32(|data|) + data
  }

  function EncodeAll(payloads: seq<seq<byte>>): seq<byte> {
    if payloads == [] then [] else EncodeFrame(payloads[0]) + EncodeAll(payloads[1..])
  }

  function Take(acc: seq<byte>): (Taken, seq<byte>) {
    if |acc| < 4 then (NeedMore, acc)
    else
      var len := GetU32(acc[..4]);
      if len > MAX_FRAME then (TooLarge, acc)
      else if |acc| < 4 + len then (NeedMore, acc)
      else (Frame(acc[4..4 + len]), acc[4 + len..])
  }

  lemma FrameLayout(data: seq<byte>)
    requires |data| < 0x1_0000_0000
    ensures EncodeFrame(data)
         == [|data| / 0x100_0000, |data| / 0x1_0000 % 0x100, |data| / 0x100 % 0x100, |data| % 0x100] + data
  {
    Bytes32(|data|);
  }

  lemma TakeShrinks(acc: seq<byte>)
    ensures Take(acc).0.Frame? ==> |Take(acc).1| < |acc|
    ensures !Take(acc).0.Frame? ==> Take(acc).1 == acc
  {}

  function Drain(frames: seq<seq<byte>>, acc: seq<byte>): Decoder
    decreases |acc|
  {
    var (t, rest) := Take(acc);
    match t
    case NeedMore => Decoder(frames, acc, false)
    case TooLarge => Decoder(frames, acc, true)
    case Frame(data) => Drain(frames + [data], rest)
  }

  /** A piece arrives; nothing is read once a length was out of range. */
  function Feed(d: Decoder, chunk: seq<byte>): Decoder {
    if d.broken then d else Drain(d.frames, d.rest + chunk)
  }

  function FeedAll(d: Decoder, chunks: seq<seq<byte>>): Decoder
    decreases |chunks|
  {
    if chunks == [] then d else FeedAll(Feed(d, chunks[0]), chunks[1..])
  }

  /** Discards frames up to the end frame; an empty read is the end of the transport. */
  function AwaitEnd(acc: seq<byte>, chunks: seq<seq<byte>>): (PumpDone, seq<byte>, seq<seq<byte>>)
    decreases |chunks|, |acc|
  {
    var (t, rest) := Take(acc);
    match t
    case Frame(data) => if data == [] then (Conn, rest, chunks) else AwaitEnd(rest, chunks)
    case TooLarge => (Session, rest, chunks)
    case NeedMore =>
      if chunks == [] then (Session, rest, chunks)
      else if chunks[0] == [] then (Session, rest, chunks[1..])
      else AwaitEnd(rest + chunks[0], chunks[1..])
  }

  method WriteFrame(data: seq<byte>) returns (out: seq<byte>)
    ensures out == EncodeFrame(data)
  {
    var len := |data| % U32;
    BytesOfU32(|data|);
    out := PutU32(len);
    SameU32(|data|);
    if data != [] {
      out := out + data;
    }
  }

  lemma SameU32(n: nat)
    ensures PutU32(n % U32) == PutU32(n)
  {
    assert n == n / U32 * U32 + n % U32;
    assert n / U16 == n / U32 * U16 + n % U32 / U16;
    Truncated16(n / U32, n % U32 / U16);
    Truncated16(n / U16, n % U16);
    Truncated16(n % U32 / U16, n % U16);
    assert n % U32 == n % U32 / U16 * U16 + n % U16;
  }

  /** The accumulator of a reading loop. */
  class Accumulator {
    var acc: seq<byte>

    constructor ()
      ensures acc == []
    {
      acc := [];
    }

    method TakeFrame() returns (t: Taken)
      modifies this
      ensures (t, acc) == Take(old(acc))
    {
      if |acc| < 4 {
        return NeedMore;
      }
      var len := GetU32(acc[..4]);
      if len > MAX_FRAME {
        return TooLarge;
      }
      if |acc| < 4 + len {
        return NeedMore;
      }
      var data: seq<byte> := [];
      assert acc[4..4] == [];
      if len != 0 {
        data := acc[4..4 + len];
      }
      acc := acc[4 + len..];
      t := Frame(data);
    }

    /** One read, and every frame it completes. */
    method OnRead(chunk: seq<byte>) returns (frames: seq<seq<byte>>, broken: bool)
      modifies this
      ensures Decoder(frames, acc, broken) == Drain([], old(acc) + chunk)
    {
      acc := acc + chunk;
      frames, broken := [], false;
      while true
        invariant Drain([], old(acc) + chunk) == Drain(frames, acc) && !broken
        decreases |acc|
      {
        TakeShrinks(acc);
        var t := TakeFrame();
        match t {
          case NeedMore => return;
          case TooLarge =>
            broken := true;
            return;
          case Frame(data) => frames := frames + [data];
        }
      }
    }

    method WaitEnd(chunks: seq<seq<byte>>) returns (done: PumpDone, unread: seq<seq<byte>>)
      modifies this
      ensures (done, acc, unread) == AwaitEnd(old(acc), chunks)
    {
      unread := chunks;
      while true
        invariant AwaitEnd(old(acc), chunks) == AwaitEnd(acc, unread)
        decreases |unread|, |acc|
      {
        TakeShrinks(acc);
        var t := TakeFrame();
        match t {
          case Frame(data) =>
            if data == [] {
              return Conn, unread;
            }
          case TooLarge =>
            return Session, unread;
          case NeedMore =>
            if unread == [] {
              return Session, unread;
            }
            var chunk := unread[0];
            unread := unread[1..];
            if chunk == [] {
              return Session, unread;
            }
            acc := acc + chunk;
        }
      }
    }
  }

  // ---------- pieces do not matter ----------

  /** What can be decided on some bytes stays decided when more follow. */
  lemma TakeMore(acc: seq<byte>, more: seq<byte>)
    ensures var (t, rest) := Take(acc);
      && (t.Frame? ==> Take(acc + more) == (t, rest + more))
      && (t.TooLarge? ==> Take(acc + more) == (TooLarge, acc + more))
  {
    if |acc| >= 4 {
      assert (acc + more)[..4] == acc[..4];
      var len := GetU32(acc[..4]);
      if len <= MAX_FRAME && |acc| >= 4 + len {
        assert (acc + more)[4..4 + len] == acc[4..4 + len];
        assert (acc + more)[4 + len..] == acc[4 + len..] + more;
      }
    }
  }

  lemma {:induction false} DrainMore(frames: seq<seq<byte>>, acc: seq<byte>, more: seq<byte>)
    ensures var d, e := Drain(frames, acc), Drain(frames, acc + more);
      && (!d.broken ==> e == Drain(d.frames, d.rest + more))
      && (d.broken ==> e.broken && e.frames == d.frames)
    decreases |acc|
  {
    TakeMore(acc, more);
    TakeShrinks(acc);
    hide Take;
    var (t, rest) := Take(acc);
    if t.Frame? {
      DrainMore(frames + [t.data], rest, more);
    }
  }

  lemma {:induction false} FeedMore(d: Decoder, chunks: seq<seq<byte>>)
    requires !d.broken ==> Drain(d.frames, d.rest) == d
    ensures var (e, f) := (FeedAll(d, chunks), Feed(d, Concat(chunks)));
      && e.frames == f.frames && e.broken == f.broken
      && (!e.broken ==> e.rest == f.rest)
    decreases |chunks|
  {
    hide Drain;
    if chunks != [] {
      var next := Feed(d, chunks[0]);
      if !d.broken {
        DrainMore(d.frames, d.rest + chunks[0], Concat(chunks[1..]));
        assert d.rest + chunks[0] + Concat(chunks[1..]) == d.rest + Concat(chunks);
        DrainIdle(d.frames, d.rest + chunks[0]);
      }
      FeedMore(next, chunks[1..]);
    } else {
      assert d.rest + [] == d.rest;
    }
  }

  lemma {:induction false} DrainIdle(frames: seq<seq<byte>>, acc: seq<byte>)
    ensures var d := Drain(frames, acc); Drain(d.frames, d.rest) == d
    decreases |acc|
  {
    TakeShrinks(acc);
    var (t, rest) := Take(acc);
    if t.Frame? {
      DrainIdle(frames + [t.data], rest);
    }
  }

  /** Whatever the bytes, however they are split: the same frames come out, and reading
      breaks off or not, just as if they had come in one piece. */
  lemma ChunkIndependence(chunks: seq<seq<byte>>, others: seq<seq<byte>>)
    requires Concat(chunks) == Concat(others)
    ensures var (a, b) := (FeedAll(Decoder([], [], false), chunks), FeedAll(Decoder([], [], false), others));
      a.frames == b.frames && a.broken == b.broken && (!a.broken ==> a.rest == b.rest)
  {
    assert Drain([], []) == Decoder([], [], false);
    FeedMore(Decoder([], [], false), chunks);
    FeedMore(Decoder([], [], false), others);
  }

  // ---------- round trip ----------

  predicate Sendable(payloads: seq<seq<byte>>) {
    forall i | 0 <= i < |payloads| :: |payloads[i]| <= 1048576
  }

  lemma TakeEncoded(data: seq<byte>, more: seq<byte>)
    requires |data| <= MAX_FRAME
    ensures Take(EncodeFrame(data) + more) == (Frame(data), more)
  {}

  /** A proper part of a frame yields nothing. */
  lemma TakePart(data: seq<byte>, k: nat)
    requires |data| <= MAX_FRAME && k < |EncodeFrame(data)|
    ensures Take(EncodeFrame(data)[..k]).0.NeedMore?
  {
    var part := EncodeFrame(data)[..k];
    if k >= 4 {
      hide PutU32, GetU32;
      assert part[..4] == PutU32(|data|);
      BytesOfU32(|data|);
    }
  }

  /** The first `k` bytes of a stream of frames: how many frames they complete. */
  function Completed(payloads: seq<seq<byte>>, k: nat): (n: nat)
    ensures n <= |payloads|
  {
    if payloads == [] || k < 4 + |payloads[0]| then 0
    else 1 + Completed(payloads[1..], k - 4 - |payloads[0]|)
  }

  /** What the first `k` bytes of a stream of frames give, from `d`. */
  ghost predicate Extracted(d: Decoder, frames: seq<seq<byte>>, payloads: seq<seq<byte>>, k: nat)
    requires k <= |EncodeAll(payloads)|
  {
    var n := Completed(payloads, k);
    && !d.broken && d.frames == frames + payloads[..n]
    && EncodeAll(payloads[..n]) + d.rest == EncodeAll(payloads)[..k]
    && (if n == |payloads| then d.rest == []
        else |d.rest| < |EncodeFrame(payloads[n])| && d.rest == EncodeFrame(payloads[n])[..|d.rest|])
  }

  lemma ExtractedNone(frames: seq<seq<byte>>, payloads: seq<seq<byte>>, k: nat)
    requires Sendable(payloads) && k <= |EncodeAll(payloads)| && Completed(payloads, k) == 0
    ensures Extracted(Drain(frames, EncodeAll(payloads)[..k]), frames, payloads, k)
  {
    var part := EncodeAll(payloads)[..k];
    assert EncodeAll(payloads[..0]) + part == part && frames + payloads[..0] == frames;
    if payloads == [] {
      assert part == [];
    } else {
      assert |EncodeFrame(payloads[0])| == 4 + |payloads[0]|;
      assert part == EncodeFrame(payloads[0])[..k];
      TakePart(payloads[0], k);
    }
    hide EncodeAll, EncodeFrame;
    TakeShrinks(part);
  }

  lemma AllCons(first: seq<byte>, tail: seq<seq<byte>>)
    ensures EncodeAll([first] + tail) == EncodeFrame(first) + EncodeAll(tail)
  {}

  lemma Cut(a: seq<byte>, b: seq<byte>, k: nat)
    requires |a| <= k <= |a| + |b|
    ensures (a + b)[..k] == a + b[..k - |a|]
  {}

  lemma CompletedMore(payloads: seq<seq<byte>>, k: nat)
    requires payloads != [] && |EncodeFrame(payloads[0])| <= k
    ensures Completed(payloads, k) == 1 + Completed(payloads[1..], k - |EncodeFrame(payloads[0])|)
  {}

  lemma ExtractedMore(d: Decoder, frames: seq<seq<byte>>, payloads: seq<seq<byte>>, k: nat)
    requires payloads != [] && |EncodeFrame(payloads[0])| <= k <= |EncodeAll(payloads)|
    requires Extracted(d, frames + [payloads[0]], payloads[1..], k - |EncodeFrame(payloads[0])|)
    ensures Extracted(d, frames, payloads, k)
  {
    hide EncodeFrame, EncodeAll, Completed;
    var (first, tail) := (payloads[0], payloads[1..]);
    var size := |EncodeFrame(first)|;
    var n := Completed(tail, k - size);
    CompletedMore(payloads, k);
    assert payloads == [first] + tail && payloads[..n + 1] == [first] + tail[..n];
    AllCons(first, tail);
    AllCons(first, tail[..n]);
    Cut(EncodeFrame(first), EncodeAll(tail), k);
    assert frames + [first] + tail[..n] == frames + payloads[..n + 1];
    assert EncodeFrame(first) + EncodeAll(tail[..n]) + d.rest == EncodeFrame(first) + (EncodeAll(tail[..n]) + d.rest);
  }

  lemma {:induction false} DrainPrefix(frames: seq<seq<byte>>, payloads: seq<seq<byte>>, k: nat)
    requires Sendable(payloads) && k <= |EncodeAll(payloads)|
    ensures Extracted(Drain(frames, EncodeAll(payloads)[..k]), frames, payloads, k)
    decreases |payloads|
  {
    var all := EncodeAll(payloads);
    if Completed(payloads, k) == 0 {
      ExtractedNone(frames, payloads, k);
    } else {
      var (first, tail) := (payloads[0], payloads[1..]);
      var size := |EncodeFrame(first)|;
      assert |EncodeFrame(first)| == 4 + |first|;
      hide Take, EncodeFrame, Extracted, Completed;
      Cut(EncodeFrame(first), EncodeAll(tail), k);
      TakeEncoded(first, EncodeAll(tail)[..k - size]);
      TakeShrinks(all[..k]);
      DrainPrefix(frames + [first], tail, k - size);
      ExtractedMore(Drain(frames, all[..k]), frames, payloads, k);
    }
  }

  /** However the encodings of some payloads are cut, and however many of the bytes have
      come, exactly the payloads complete by then have been taken, in order, and what is left
      over is a proper beginning of the next. */
  lemma FramingTheorem(payloads: seq<seq<byte>>, chunks: seq<seq<byte>>, k: nat)
    requires Sendable(payloads) && k <= |EncodeAll(payloads)| && Concat(chunks) == EncodeAll(payloads)[..k]
    ensures var n := Completed(payloads, k);
      var d := FeedAll(Decoder([], [], false), chunks);
      && !d.broken && d.frames == payloads[..n]
      && EncodeAll(payloads[..n]) + d.rest == Concat(chunks)
      && (if n == |payloads| then d.rest == []
          else |d.rest| < |EncodeFrame(payloads[n])| && d.rest == EncodeFrame(payloads[n])[..|d.rest|])
      && (k == |EncodeAll(payloads)| ==> d.frames == payloads && d.rest == [])
  {
    hide Take, EncodeFrame, Drain, FeedAll, Feed, Completed, EncodeAll, Concat;
    FeedStart(Concat(chunks));
    FeedMore(Decoder([], [], false), chunks);
    DrainPrefix([], payloads, k);
    assert [] + payloads[..Completed(payloads, k)] == payloads[..Completed(payloads, k)];
    if k == |EncodeAll(payloads)| {
      CompletedAll(payloads);
      assert payloads[..|payloads|] == payloads;
    }
  }

  lemma FeedStart(x: seq<byte>)
    ensures Feed(Decoder([], [], false), x) == Drain([], x)
    ensures Drain([], []) == Decoder([], [], false)
  {
    assert [] + x == x;
  }

  lemma {:induction false} CompletedAll(payloads: seq<seq<byte>>)
    ensures Completed(payloads, |EncodeAll(payloads)|) == |payloads|
  {
    if payloads != [] {
      CompletedAll(payloads[1..]);
    }
  }

  /** A payload over 1 MiB ends the session, whatever was sent after it. */
  lemma OversizedBreaks(data: seq<byte>, more: seq<byte>)
    requires 1048576 < |data| < U32
    ensures Take(EncodeFrame(data) + more).0 == TooLarge
  {}

  // ---------- the end frame ----------

  ghost predicate Nonempty(parts: seq<seq<byte>>) {
    forall i | 0 <= i < |parts| :: parts[i] != []
  }

  lemma NeedMoreMeans(acc: seq<byte>, data: seq<byte>, more: seq<byte>, left: seq<byte>)
    requires |data| <= MAX_FRAME && acc + left == EncodeFrame(data) + more
    ensures var (t, rest) := Take(acc);
      && !t.TooLarge?
      && (t.Frame? ==> t.data == data && rest + left == more)
      && (t.NeedMore? ==> rest == acc && left != [])
  {
    hide PutU32, GetU32;
    TakeEncoded(data, more);
    TakeMore(acc, left);
    TakeShrinks(acc);
    hide Take;
    if left == [] {
      assert acc + left == acc;
    }
  }

  /** Waiting for the end frame discards the data frames before it and stops right behind it. */
  lemma {:induction false} WaitEndTheorem(acc: seq<byte>, chunks: seq<seq<byte>>, payloads: seq<seq<byte>>, tail: seq<byte>)
    requires Sendable(payloads) && Nonempty(payloads) && Nonempty(chunks)
    requires acc + Concat(chunks) == EncodeAll(payloads) + EncodeFrame([]) + tail
    ensures var (done, rest, unread) := AwaitEnd(acc, chunks);
      done == Conn && rest + Concat(unread) == tail
    decreases |chunks|, |acc|
  {
    var next := if payloads == [] then [] else payloads[0];
    var later := if payloads == [] then tail else EncodeAll(payloads[1..]) + EncodeFrame([]) + tail;
    assert acc + Concat(chunks) == EncodeFrame(next) + later;
    NeedMoreMeans(acc, next, later, Concat(chunks));
    TakeShrinks(acc);
    hide Take, EncodeFrame;
    var (t, rest) := Take(acc);
    if t.Frame? {
      if payloads != [] {
        assert payloads[0] != [];
        WaitEndTheorem(rest, chunks, payloads[1..], tail);
      }
    } else {
      assert chunks != [];
      assert acc + (chunks[0] + Concat(chunks[1..])) == acc + chunks[0] + Concat(chunks[1..]);
      WaitEndTheorem(acc + chunks[0], chunks[1..], payloads, tail);
    }
  }

  /** An empty read is the end of the transport: if the end frame has not come by then the session
      is over, and what could be read later is not looked at. */
  lemma {:induction false} EmptyReadEnds(acc: seq<byte>, before: seq<seq<byte>>, after: seq<seq<byte>>)
    requires Nonempty(before)
    ensures AwaitEnd(acc, before + [[]] + after).0 == AwaitEnd(acc, before).0
    decreases |before|, |acc|
  {
    TakeShrinks(acc);
    hide Take;
    var (t, rest) := Take(acc);
    var all := before + [[]] + after;
    if t.Frame? {
      if t.data != [] {
        EmptyReadEnds(rest, before, after);
      }
    } else if t.NeedMore? && before != [] {
      assert all[0] == before[0] && all[1..] == before[1..] + [[]] + after;
      EmptyReadEnds(rest + before[0], before[1..], after);
    } else if t.NeedMore? {
      assert all[0] == [];
    }
  }
}
