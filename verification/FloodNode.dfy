/**
 One pathfinding node of components/local_network/espnow_manager.c: what the receive callback and
 espnow_pathfind_start do to its state, and what they send.
 */
module FloodNode {
  import opened DedupRing
  import opened MacText
  import opened Packets

  const TTL_DEFAULT: nat := 8

  /** `inserted`: every id that ever went into the duplicate buffer, oldest first. */
  datatype NodeState = NodeState(inserted: seq<string>, containerId: string, destLed: bool, pathLed: bool)

  datatype Sending = Nothing | Broadcast(packet: Packet) | Unicast(to: Mac, packet: Packet)

  const FRESH_NODE := NodeState([], "", false, false)

  predicate IsTarget(s: NodeState, dst: string) {
    s.containerId != "" && s.containerId == dst
  }

  /** flood_req: decrement the TTL, count the hop, and append the own address to the path. */
  function FloodReq(me: Mac, id: string, dst: string, ttl: nat, hop: nat, path: seq<Mac>): Sending {
    if ttl == 0 then Nothing else Broadcast(Req(id, dst, me, ttl - 1, hop + 1, path + [me]))
  }

  /** Unicast an ACK to the second-to-last entry of its path. */
  function SendAck(id: string, dst: string, path: seq<Mac>): Sending {
    if |path| < 2 then Nothing
    else Unicast(ParseMac(MacString(path[|path| - 2])), Ack(id, dst, path))
  }

  /** The receive callback on a packet that parsed. */
  function AfterReceive(s: NodeState, p: Packet): NodeState {
    var seen := s.(inserted := AfterSeen(s.inserted, p.id));
    if Suppressed(s.inserted, p.id) then s
    else if p.Ack? then seen.(pathLed := true)
    else if IsTarget(s, p.dst) then seen.(destLed := true)
    else seen
  }

  function ReceiveSends(me: Mac, s: NodeState, p: Packet): Sending {
    if Suppressed(s.inserted, p.id) then Nothing
    else if p.Ack? then SendAck(p.id, p.dst, p.path)
    else if IsTarget(s, p.dst) then SendAck(p.id, p.dst, p.path + [me])
    else FloodReq(me, p.id, p.dst, p.ttl, p.hop, p.path + [me])
  }

  function AfterStart(me: Mac, s: NodeState, target: string, tick: nat): NodeState {
    if target == "" then s else s.(inserted := AfterSeen(s.inserted, MessageId(me, tick)))
  }

  function StartSends(me: Mac, target: string, tick: nat): Sending {
    if target == "" then Nothing else FloodReq(me, MessageId(me, tick), target, TTL_DEFAULT, 0, [])
  }

  /** An ACK goes to the entry itself: writing the address as text and reading it back changes nothing. */
  lemma AckGoesToPreviousEntry(id: string, dst: string, path: seq<Mac>)
    requires |path| >= 2
    ensures SendAck(id, dst, path) == Unicast(path[|path| - 2], Ack(id, dst, path))
  {
    MacRoundTrip(path[|path| - 2]);
  }

  /** The receive callback spelt out: a suppressed packet changes and sends nothing; a first REQ is answered to
      the entry before last by the container it looks for, whose DEST LED comes on, and is passed on by any
      other node while its TTL lasts; a first ACK lights the PATH LED and is passed to its entry before last. */
  lemma ReceiveSpeltOut(me: Mac, s: NodeState, p: Packet)
    ensures var t := AfterReceive(s, p);
            var fresh' := !Suppressed(s.inserted, p.id);
            && t.containerId == s.containerId && t.inserted == AfterSeen(s.inserted, p.id)
            && (t.destLed <==> s.destLed || (fresh' && p.Req? && s.containerId != "" && s.containerId == p.dst))
            && (t.pathLed <==> s.pathLed || (fresh' && p.Ack?))
    ensures Suppressed(s.inserted, p.id) ==> ReceiveSends(me, s, p) == Nothing
    ensures !Suppressed(s.inserted, p.id) && p.Ack? ==>
              ReceiveSends(me, s, p) == if |p.path| >= 2 then Unicast(p.path[|p.path| - 2], p) else Nothing
    ensures !Suppressed(s.inserted, p.id) && p.Req? && s.containerId != "" && s.containerId == p.dst ==>
              ReceiveSends(me, s, p) ==
              if |p.path| >= 1 then Unicast(p.path[|p.path| - 1], Ack(p.id, p.dst, p.path + [me])) else Nothing
    ensures !Suppressed(s.inserted, p.id) && p.Req? && !(s.containerId != "" && s.containerId == p.dst) ==>
              ReceiveSends(me, s, p) ==
              if p.ttl > 0 then Broadcast(Req(p.id, p.dst, me, p.ttl - 1, p.hop + 1, p.path + [me] + [me])) else Nothing
  {
    if Suppressed(s.inserted, p.id) {
      SuppressedStays(s.inserted, p.id);
    } else if p.Ack? {
      AckIsPassedBack(p);
    } else {
      AnswerGoesToSender(me, p);
    }
    hide Suppressed, AfterSeen, ParseMac, MacString, SendAck;
  }

  lemma AckIsPassedBack(p: Packet)
    requires p.Ack?
    ensures SendAck(p.id, p.dst, p.path) == if |p.path| >= 2 then Unicast(p.path[|p.path| - 2], p) else Nothing
  {
    hide ParseMac, MacString;
    if |p.path| >= 2 {
      AckGoesToPreviousEntry(p.id, p.dst, p.path);
    }
  }

  lemma AnswerGoesToSender(me: Mac, p: Packet)
    requires p.Req?
    ensures SendAck(p.id, p.dst, p.path + [me]) ==
            if |p.path| >= 1 then Unicast(p.path[|p.path| - 1], Ack(p.id, p.dst, p.path + [me])) else Nothing
  {
    hide ParseMac, MacString;
    if |p.path| >= 1 {
      AckGoesToPreviousEntry(p.id, p.dst, p.path + [me]);
    }
  }

  lemma SuppressedStays(inserted: seq<string>, id: string)
    requires Suppressed(inserted, id)
    ensures AfterSeen(inserted, id) == inserted
  {
  }

  class PathfindNode {
    const ownMac: Mac
    const ring: Ring
    var containerId: string
    var destLed: bool
    var pathLed: bool

    ghost predicate Valid()
      reads this, ring, ring.slots
    {
      ring.Valid()
    }

    ghost function State(): NodeState
      reads this, ring
    {
      NodeState(ring.inserted, containerId, destLed, pathLed)
    }

    constructor (mac: Mac, containerId: string)
      ensures Valid() && fresh(ring) && fresh(ring.slots)
      ensures ownMac == mac && State() == FRESH_NODE.(containerId := containerId)
    {
      ownMac := mac;
      ring := new Ring();
      this.containerId := containerId;
      destLed, pathLed := false, false;
    }

    /** espnow_recv_cb behind the parser. */
    method Receive(p: Packet) returns (out: Sending)
      requires Valid()
      modifies this`destLed, this`pathLed, ring, ring.slots
      ensures Valid()
      ensures State() == AfterReceive(old(State()), p)
      ensures out == ReceiveSends(ownMac, old(State()), p)
      ensures ring.inserted == AfterSeen(old(ring.inserted), p.id)
      ensures destLed <==> old(destLed) || (!Suppressed(old(ring.inserted), p.id) && p.Req?
                                            && containerId != "" && containerId == p.dst)
      ensures pathLed <==> old(pathLed) || (!Suppressed(old(ring.inserted), p.id) && p.Ack?)
    {
      if Suppressed(ring.inserted, p.id) {
        SuppressedStays(ring.inserted, p.id);
      }
      hide SendAck, Suppressed, AfterSeen, Represents;
      out := Nothing;
      var seen := ring.Seen(p.id);
      if seen {
        return;
      }
      match p {
        case Req(id, dst, src, ttl, hop, path) =>
          var updated := path + [ownMac];
          if containerId != "" && containerId == dst {
            destLed := true;
            out := SendAck(id, dst, updated);
          } else if ttl > 0 {
            out := FloodReq(ownMac, id, dst, ttl, hop, updated);
          }
        case Ack(id, dst, path) =>
          pathLed := true;
          out := SendAck(id, dst, path);
      }
    }

    /** espnow_pathfind_start; the duplicate buffer's answer is ignored. */
    method PathfindStart(target: string, tick: nat) returns (out: Sending)
      requires Valid()
      modifies ring, ring.slots
      ensures Valid()
      ensures State() == AfterStart(ownMac, old(State()), target, tick)
      ensures out == StartSends(ownMac, target, tick)
      ensures out == if target == "" then Nothing
                     else Broadcast(Req(MessageId(ownMac, tick), target, ownMac, 7, 1, [ownMac]))
    {
      if target == "" {
        return Nothing;
      }
      var id := MessageId(ownMac, tick);
      var seen := ring.Seen(id);
      out := FloodReq(ownMac, id, target, TTL_DEFAULT, 0, []);
      assert [] + [ownMac] == [ownMac];
    }
  }
}
