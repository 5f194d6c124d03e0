/** The mesh object of a space session. */
module SpaceMesh {
  import opened Bytes
  import opened Security
  import opened SpaceMeshSpec

  class SpaceLinks {
    const local: nat
    var peers: Links

    ghost function View(): Mesh
      reads this
    {
      Mesh(local, peers)
    }

    constructor (local: nat)
      ensures View() == Mesh(local, map[])
    {
      this.local := local;
      peers := map[];
    }

    method RefreshPeers(listed: seq<Entry>, challenges: seq<Challenge>) returns (ok: bool)
      requires |challenges| == |listed|
      modifies this
      ensures (View(), ok) == Refresh(old(View()), listed, challenges)
    {
      if |listed| > MAX_PEERS {
        return false;
      }
      var next: Links := map[];
      ghost var was := peers;
      assert listed[0..] == listed && challenges[0..] == challenges;
      for k := 0 to |listed|
        invariant RefreshFrom(local, was, map[], listed, challenges)
               == RefreshFrom(local, peers, next, listed[k..], challenges[k..])
      {
        var e := listed[k];
        if !Acceptable(local, e, next) {
          return false;
        }
        var i := e.peer.address % 256;
        var link := Renewed(peers, e.peer, challenges[k]);
        peers := peers - {i};
        next := next[i := link];
      }
      peers := next;
      ok := true;
    }

    method SendHeartbeat(nonces: nat -> seq<byte>) returns (frames: seq<Frame>)
      modifies this
      ensures View() == Heartbeat(old(View()), nonces).0
      ensures FramesOf(frames, Heartbeat(old(View()), nonces).1)
    {
      hide Beat;
      frames := [];
      var todo := peers.Keys;
      ghost var was := View();
      while todo != {}
        invariant todo <= peers.Keys == was.peers.Keys
        invariant forall i | i in peers :: peers[i] == if i in todo then was.peers[i] else Beat(was.peers[i], nonces(i)).0
        invariant FramesOf(frames, Without(Heartbeat(was, nonces).1, todo))
        decreases |todo|
      {
        var i :| i in todo;
        var (link, d) := Beat(peers[i], nonces(i));
        OneMore(frames, Heartbeat(was, nonces).1, todo, i);
        peers := peers[i := link];
        if d.Some? {
          frames := frames + [Frame(i, d.value)];
        }
        todo := todo - {i};
      }
      assert Without(Heartbeat(was, nonces).1, {}) == Heartbeat(was, nonces).1;
      assert peers == Heartbeat(was, nonces).0.peers;
    }

    method ForwardPacket(p: seq<byte>) returns (frames: seq<Frame>)
      modifies this
      ensures View() == Forward(old(View()), p).0
      ensures FramesOf(frames, Forward(old(View()), p).1)
    {
      frames := [];
      var a := Addresses(p);
      if a.None? || a.value.0 != local || a.value.1 == local {
        return;
      }
      hide Carry;
      var to := a.value.1;
      var todo := peers.Keys;
      ghost var was := View();
      while todo != {}
        invariant todo <= peers.Keys == was.peers.Keys
        invariant forall i | i in peers :: peers[i] == if i in todo then was.peers[i] else Carry(was.peers[i], p, to).0
        invariant FramesOf(frames, Without(Forward(was, p).1, todo))
        decreases |todo|
      {
        var i :| i in todo;
        OneMore(frames, Forward(was, p).1, todo, i);
        var (link, d) := Carry(peers[i], p, to);
        peers := peers[i := link];
        if d.Some? {
          frames := frames + [Frame(i, d.value)];
        }
        todo := todo - {i};
      }
      assert Without(Forward(was, p).1, {}) == Forward(was, p).1;
      assert peers == Forward(was, p).0.peers;
    }

    method ReceiveFrame(f: Frame) returns (r: Received)
      modifies this
      ensures (View(), r) == SpaceMeshSpec.Receive(old(View()), f)
    {
      if f.Empty? || f.address !in peers {
        return Received(None, None);
      }
      var link := peers[f.address];
      var (s, incoming) := Security.Receive(link.security, f.message);
      link := link.(security := s);
      var reply: Option<Frame> := None;
      var packet: Option<seq<byte>> := None;
      match incoming {
        case Reply(answer) => reply := Some(Frame(f.address, answer));
        case Ignore =>
        case Data(plain) =>
          if |plain| == 9 && plain[0] == 1 {
            var pong := [2] + plain[1..];
            var (s', sealed) := Seal(link.security, pong);
            link := link.(security := s');
            reply := Addressed(f.address, sealed);
          } else if |plain| == 9 && plain[0] == 2 {
            if link.ping == Some(plain[1..]) {
              link := link.(ping := None);
            }
          } else if plain != [] && plain[0] == 0 {
            if Genuine(local, link, plain[1..]) {
              packet := Some(plain[1..]);
            }
          }
      }
      peers := peers[f.address := link];
      r := Received(reply, packet);
    }
  }

  ghost function Without(out: map<nat, Datagram>, todo: set<nat>): map<nat, Datagram> {
    out - todo
  }

  lemma OneMore(frames: seq<Frame>, out: map<nat, Datagram>, todo: set<nat>, i: nat)
    requires FramesOf(frames, Without(out, todo)) && i in todo
    ensures FramesOf(if i in out then frames + [Frame(i, out[i])] else frames, Without(out, todo - {i}))
  {
    var more := if i in out then frames + [Frame(i, out[i])] else frames;
    var o := Without(out, todo - {i});
    forall j | j in o ensures Frame(j, o[j]) in more {
      if j != i {
        var before := Without(out, todo);
        assert j in before && before[j] == o[j] && Frame(j, before[j]) in frames;
      } else {
        assert more[|frames|] == Frame(i, out[i]);
      }
    }
  }
}
