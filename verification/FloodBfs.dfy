/**
 One flood in a fresh network, delivered without loss round by round, in any order within a round: it
 explores the radio graph breadth first, for as many rounds as its packets fit into 250 bytes: four for a
 target of printed length up to 26. Nodes carrying the target id take part but do not pass the flood on.
 */
module FloodBfs {
  import opened DedupRing
  import opened MacText
  import opened JsonText
  import opened Packets
  import opened FloodNode
  import opened FloodNet

  /** The flood under study: who starts it, for which container, with which id, and who carries what. */
  datatype Flood = Flood(graph: Graph, origin: Mac, target: string, id: string, carriers: map<Mac, string>)

  function ContainerOf(fl: Flood, v: Mac): string {
    if v in fl.carriers then fl.carriers[v] else ""
  }

  /** The originator always sends; every other node passes the flood on unless it is a target. */
  predicate Expands(fl: Flood, v: Mac) {
    v == fl.origin || ContainerOf(fl, v) != fl.target
  }

  /** The graph ball of radius `k` around the originator, not expanded through targets. */
  ghost predicate InBall(fl: Flood, k: nat, v: Mac) {
    if k == 0 then v == fl.origin
    else InBall(fl, k - 1, v) || exists w: Mac :: InBall(fl, k - 1, w) && Expands(fl, w) && v in Neighbours(fl.graph, w)
  }

  lemma BallGrows(fl: Flood, k: nat, v: Mac, w: Mac)
    ensures InBall(fl, k, v) ==> InBall(fl, k + 1, v)
    ensures InBall(fl, k, w) && Expands(fl, w) && v in Neighbours(fl.graph, w) ==> InBall(fl, k + 1, v)
  {
  }

  predicate Has(net: Net, v: Mac) {
    NodeOf(net, v).inserted != []
  }

  // ---------------------------------------------------------------- rounds

  /** Deliver packets one after the other, each picked by its place among those in flight. */
  function Deliveries(g: Graph, net: Net, picks: seq<nat>): Net {
    if picks == [] then net else Next(g, Deliveries(g, net, picks[..|picks| - 1]), Deliver(picks[|picks| - 1]))
  }

  /** An order in which a round of `n` packets can be delivered, and nothing sent meanwhile: what is left of the
      round comes before what is new. */
  predicate IsOrder(picks: seq<nat>, n: nat) {
    |picks| <= n && forall i :: 0 <= i < |picks| ==> picks[i] < n - i
  }

  /** Rounds one after the other: everything in flight at the beginning of a round is delivered, in some order. */
  function Rounds(g: Graph, net: Net, orders: seq<seq<nat>>): Net {
    if orders == [] then net
    else Deliveries(g, Rounds(g, net, orders[..|orders| - 1]), orders[|orders| - 1])
  }

  predicate AreRounds(g: Graph, net: Net, orders: seq<seq<nat>>) {
    orders == [] || (
      var init, last := orders[..|orders| - 1], orders[|orders| - 1];
      AreRounds(g, net, init) && |last| == |Rounds(g, net, init).air| && IsOrder(last, |last|))
  }

  /** A network in which nothing has happened yet and every node carries its container id. */
  ghost predicate Pristine(net: Net, fl: Flood) {
    net.air == [] && net.log == [] && forall v: Mac :: NodeOf(net, v) == FRESH_NODE.(containerId := ContainerOf(fl, v))
  }

  predicate Proper(fl: Flood) {
    fl.target != "" && |fl.id| == ID_LENGTH && |Escape(fl.id)| == ID_LENGTH
  }

  /** The last hop at which a REQ for this target still fits into a packet. */
  function Range(fl: Flood): nat {
    var printed := |Escape(fl.target)|;
    if printed > 186 then 0 else (186 - printed) / 40
  }

  // ---------------------------------------------------------------- invariant

  /** A REQ of this flood, sent at hop `h` by an expanding node of the ball of radius `h - 1`. */
  ghost predicate SentAt(fl: Flood, f: Flight, h: nat) {
    var p := f.packet;
    && p.Req? && h >= 1 && p.id == fl.id && p.dst == fl.target
    && p.hop == h && p.ttl + h == TTL_DEFAULT && |p.path| == 2 * h - 1
    && InBall(fl, h - 1, p.src) && Expands(fl, p.src) && f.to in Neighbours(fl.graph, p.src)
    && p.path[|p.path| - 1] == p.src
  }

  /** An ACK of this flood on its way to a node that has the id. */
  ghost predicate AckAt(net: Net, fl: Flood, f: Flight) {
    f.packet.Ack? && f.packet.id == fl.id && Has(net, f.to)
  }

  ghost predicate FlightAt(net: Net, fl: Flood, f: Flight, h: nat) {
    if f.packet.Req? then SentAt(fl, f, h) else AckAt(net, fl, f)
  }

  /** Buffers hold nothing or exactly this id, and container ids never change. */
  ghost predicate NodesOk(net: Net, fl: Flood) {
    forall v: Mac :: NodeOf(net, v).inserted in {[], [fl.id]} && NodeOf(net, v).containerId == ContainerOf(fl, v)
  }

  /** Every acceptance happened at the hop that equals the distance. */
  ghost predicate LogAt(net: Net, fl: Flood) {
    forall e <- net.log :: e.Accepted? ==> e.hop >= 1 && InBall(fl, e.hop, e.node) && !InBall(fl, e.hop - 1, e.node)
  }

  predicate ReqTo(flights: seq<Flight>, v: Mac) {
    exists i :: 0 <= i < |flights| && flights[i].packet.Req? && flights[i].to == v
  }

  /** In the middle of round `k + 1`: `now` is left of the round's packets, `next` has been sent during
      the round. The nodes that have the id are the ball of radius `k` and those the round has reached;
      the newly reached ones that expand have sent to all their neighbours. */
  ghost predicate MidRound(net: Net, fl: Flood, k: nat, now: seq<Flight>, next: seq<Flight>) {
    && net.air == now + next
    && NodesOk(net, fl) && LogAt(net, fl)
    && (forall f <- now :: FlightAt(net, fl, f, k + 1))
    && (forall f <- next :: FlightAt(net, fl, f, k + 2))
    && (forall v: Mac :: InBall(fl, k, v) ==> Has(net, v))
    && (forall v: Mac :: Has(net, v) ==> InBall(fl, k + 1, v))
    && (forall v: Mac :: InBall(fl, k + 1, v) ==> Has(net, v) || ReqTo(now, v))
    && (forall w: Mac, v: Mac :: Has(net, w) && !InBall(fl, k, w) && Expands(fl, w) && v in Neighbours(fl.graph, w)
          ==> ReqTo(next, v))
  }

  /** Between rounds: after round `k` exactly the ball of radius `k` has the id, and the packets in
      flight are about to reach the ball of radius `k + 1`. */
  ghost predicate AfterRound(net: Net, fl: Flood, k: nat) {
    && NodesOk(net, fl) && LogAt(net, fl)
    && (forall v: Mac :: Has(net, v) <==> InBall(fl, k, v))
    && (forall f <- net.air :: FlightAt(net, fl, f, k + 1))
    && (forall v: Mac :: InBall(fl, k + 1, v) ==> InBall(fl, k, v) || ReqTo(net.air, v))
  }

  // ---------------------------------------------------------------- start and end of a round

  lemma RoundBegins(net: Net, fl: Flood, k: nat)
    requires AfterRound(net, fl, k)
    ensures MidRound(net, fl, k, net.air, [])
  {
    hide NodesOk, LogAt, FlightAt, Has, ReqTo, Expands;
    assert net.air + [] == net.air;
    forall v: Mac
      ensures InBall(fl, k, v) ==> InBall(fl, k + 1, v)
    {
      BallGrows(fl, k, v, v);
    }
  }

  lemma RoundEnds(net: Net, fl: Flood, k: nat, next: seq<Flight>)
    requires MidRound(net, fl, k, [], next)
    ensures AfterRound(net, fl, k + 1) && net.air == next
  {
    hide NodesOk, LogAt, FlightAt, Has, Expands;
    assert [] + next == next;
    assert forall v: Mac :: !ReqTo([], v);
    forall v: Mac | InBall(fl, k + 2, v)
      ensures InBall(fl, k + 1, v) || ReqTo(next, v)
    {
      if !InBall(fl, k + 1, v) {
        var w: Mac :| InBall(fl, k + 1, w) && Expands(fl, w) && v in Neighbours(fl.graph, w);
        if InBall(fl, k, w) {
          BallGrows(fl, k, v, w);
        }
      }
    }
  }

  // ---------------------------------------------------------------- one delivery

  lemma FloodReqArrives(fl: Flood, f: Flight, h: nat)
    requires Proper(fl) && SentAt(fl, f, h)
    ensures Arrives(f.packet) <==> h <= Range(fl)
  {
    hide PacketText, Arrives, Escape, InBall;
    ReqLength(f.packet);
    ArrivesIffFits(f.packet);
  }

  /** A node that has the id ignores whatever arrives. */
  lemma HolderIgnores(net: Net, fl: Flood, f: Flight)
    requires NodesOk(net, fl) && Proper(fl) && Has(net, f.to) && f.packet.id == fl.id
    ensures Suppressed(NodeOf(net, f.to).inserted, f.packet.id)
  {
    hide Escape;
    var inserted := NodeOf(net, f.to).inserted;
    assert inserted == [fl.id];
    assert inserted[0] == fl.id;
  }

  lemma FirstIsAccepted(net: Net, fl: Flood, f: Flight)
    requires NodesOk(net, fl) && Proper(fl) && !Has(net, f.to) && f.packet.id == fl.id
    ensures !Suppressed(NodeOf(net, f.to).inserted, f.packet.id)
    ensures AfterSeen(NodeOf(net, f.to).inserted, f.packet.id) == [fl.id]
  {
    hide Escape;
    assert NodeOf(net, f.to).inserted == [];
  }

  lemma IgnoredIsOnlyGone(g: Graph, net: Net, fl: Flood, f: Flight)
    requires NodesOk(net, fl) && Proper(fl) && f.packet.id == fl.id
    requires Has(net, f.to) || !Arrives(f.packet)
    ensures OnlyGone(net, Receive(g, net, f), net.air)
  {
    hide Receive, OnlyGone, Arrives;
    if Has(net, f.to) {
      HolderIgnores(net, fl, f);
    }
    SuppressedIsIgnored(g, net, f);
  }

  lemma ReqToTail(now: seq<Flight>, v: Mac)
    requires now != []
    ensures ReqTo(now, v) <==> (now[0].packet.Req? && now[0].to == v) || ReqTo(now[1..], v)
  {
    if ReqTo(now[1..], v) {
      var i :| 0 <= i < |now[1..]| && now[1..][i].packet.Req? && now[1..][i].to == v;
      assert now[i + 1] == now[1..][i];
    }
    if ReqTo(now, v) {
      var i :| 0 <= i < |now| && now[i].packet.Req? && now[i].to == v;
      if i > 0 {
        assert now[1..][i - 1] == now[i];
      }
    }
  }

  lemma ReqToAppend(a: seq<Flight>, b: seq<Flight>, v: Mac)
    ensures ReqTo(a + b, v) <==> ReqTo(a, v) || ReqTo(b, v)
  {
    if ReqTo(a, v) {
      var i :| 0 <= i < |a| && a[i].packet.Req? && a[i].to == v;
      assert (a + b)[i] == a[i];
    }
    if ReqTo(b, v) {
      var i :| 0 <= i < |b| && b[i].packet.Req? && b[i].to == v;
      assert (a + b)[|a| + i] == b[i];
    }
    if ReqTo(a + b, v) {
      var i :| 0 <= i < |a + b| && (a + b)[i].packet.Req? && (a + b)[i].to == v;
      if i < |a| {
        assert a[i] == (a + b)[i];
      } else {
        assert b[i - |a|] == (a + b)[i];
      }
    }
  }

  /** A packet that reaches a node which has the id already. */
  lemma IgnoredKeepsMidRound(net: Net, net': Net, fl: Flood, k: nat, now: seq<Flight>, next: seq<Flight>)
    requires MidRound(net, fl, k, now, next) && now != []
    requires now[0].packet.Req? ==> Has(net, now[0].to)
    requires OnlyGone(net, net', now[1..] + next)
    ensures MidRound(net', fl, k, now[1..], next)
  {
    hide SentAt, InBall, Expands, ReqTo;
    assert forall v: Mac :: Has(net', v) == Has(net, v);
    assert NodesOk(net', fl) && LogAt(net', fl);
    forall v: Mac | InBall(fl, k + 1, v)
      ensures Has(net', v) || ReqTo(now[1..], v)
    {
      ReqToTail(now, v);
    }
    forall f <- now[1..]
      ensures FlightAt(net', fl, f, k + 1)
    {
      assert f in now;
    }
  }

  /** What a node sends on its first REQ of the flood. */
  lemma FirstReqSends(net: Net, fl: Flood, f: Flight, k: nat)
    requires NodesOk(net, fl) && Proper(fl) && SentAt(fl, f, k + 1) && k + 1 < TTL_DEFAULT
    requires !Has(net, f.to) && f.to != fl.origin
    ensures var s := NodeOf(net, f.to);
            var p := f.packet;
            ReceiveSends(f.to, s, p) ==
            if Expands(fl, f.to)
            then Broadcast(Req(p.id, p.dst, f.to, p.ttl - 1, p.hop + 1, p.path + [f.to] + [f.to]))
            else Unicast(p.src, Ack(p.id, p.dst, p.path + [f.to]))
  {
    FirstIsAccepted(net, fl, f);
    AckGoesToPreviousEntry(f.packet.id, f.packet.dst, f.packet.path + [f.to]);
    hide Suppressed, InBall, SendAck;
  }

  /** The state after the first REQ of the flood has been accepted. */
  ghost predicate Accepts(net: Net, net': Net, fl: Flood, v: Mac, hop: nat, sent: seq<Flight>) {
    && net'.air == net.air + sent
    && (forall u: Mac :: u != v ==> NodeOf(net', u) == NodeOf(net, u))
    && NodeOf(net', v).inserted == [fl.id] && NodeOf(net', v).containerId == NodeOf(net, v).containerId
    && (forall e <- net'.log :: e in net.log || !e.Accepted? || e == Accepted(v, fl.id, hop))
  }

  lemma FirstReqAccepts(g: Graph, net: Net, fl: Flood, f: Flight, k: nat)
    requires NodesOk(net, fl) && Proper(fl) && SentAt(fl, f, k + 1) && !Has(net, f.to) && Arrives(f.packet)
    ensures Accepts(net, Receive(g, net, f), fl, f.to, k + 1,
                    Emit(g, f.to, ReceiveSends(f.to, NodeOf(net, f.to), f.packet)))
  {
    FirstIsAccepted(net, fl, f);
    hide Suppressed, InBall, Emit, ReceiveSends, Arrives, NodesOk;
  }

  lemma AcceptKeepsNodes(net: Net, net': Net, fl: Flood, v: Mac, hop: nat, sent: seq<Flight>)
    requires Accepts(net, net', fl, v, hop, sent) && NodesOk(net, fl) && LogAt(net, fl)
    requires hop >= 1 && InBall(fl, hop, v) && !InBall(fl, hop - 1, v)
    ensures NodesOk(net', fl) && LogAt(net', fl)
    ensures forall u: Mac :: Has(net', u) <==> Has(net, u) || u == v
  {
    hide InBall, NodeOf;
    forall u: Mac
      ensures NodeOf(net', u).inserted in {[], [fl.id]} && NodeOf(net', u).containerId == ContainerOf(fl, u)
      ensures Has(net', u) <==> Has(net, u) || u == v
    {
      if u != v {
        assert NodeOf(net', u) == NodeOf(net, u);
      }
      assert NodeOf(net, u).containerId == ContainerOf(fl, u);
    }
  }

  /** What the accepting node has sent, as packets of the next round. */
  lemma SentFlightsAt(net': Net, fl: Flood, f: Flight, k: nat, sent: seq<Flight>)
    requires SentAt(fl, f, k + 1) && k + 1 < TTL_DEFAULT && Has(net', f.packet.src)
    requires var p := f.packet;
             sent == Emit(fl.graph, f.to,
               if Expands(fl, f.to)
               then Broadcast(Req(p.id, p.dst, f.to, p.ttl - 1, p.hop + 1, p.path + [f.to] + [f.to]))
               else Unicast(p.src, Ack(p.id, p.dst, p.path + [f.to])))
    ensures forall h <- sent :: FlightAt(net', fl, h, k + 2)
    ensures Expands(fl, f.to) ==> forall v <- Neighbours(fl.graph, f.to) :: ReqTo(sent, v)
  {
    BallGrows(fl, k, f.to, f.packet.src);
    hide InBall, Has;
    if Expands(fl, f.to) {
      forall v <- Neighbours(fl.graph, f.to)
        ensures ReqTo(sent, v)
      {
        var i :| 0 <= i < |Neighbours(fl.graph, f.to)| && Neighbours(fl.graph, f.to)[i] == v;
        assert sent[i].packet.Req? && sent[i].to == v;
      }
    }
  }

  /** A REQ that reaches a node for the first time. */
  lemma AcceptKeepsMidRound(net: Net, net': Net, fl: Flood, k: nat,
                            now: seq<Flight>, next: seq<Flight>, sent: seq<Flight>)
    requires MidRound(net, fl, k, now, next) && now != []
    requires var f := now[0];
             && f.packet.Req? && !Has(net, f.to)
             && Accepts(net.(air := now[1..] + next), net', fl, f.to, k + 1, sent)
             && (forall h <- sent :: FlightAt(net', fl, h, k + 2))
             && (Expands(fl, f.to) ==> forall v <- Neighbours(fl.graph, f.to) :: ReqTo(sent, v))
    ensures MidRound(net', fl, k, now[1..], next + sent)
  {
    var f := now[0];
    var rest := net.(air := now[1..] + next);
    assert InBall(fl, k + 1, f.to) by {
      assert now[0] in now;
      assert FlightAt(net, fl, f, k + 1);
      BallGrows(fl, k, f.to, f.packet.src);
    }
    assert !InBall(fl, k, f.to);
    hide InBall, SentAt, ReqTo, Expands;
    assert forall u: Mac :: NodeOf(rest, u) == NodeOf(net, u);
    assert NodesOk(rest, fl) && LogAt(rest, fl);
    AcceptKeepsNodes(rest, net', fl, f.to, k + 1, sent);
    assert forall u: Mac :: Has(net', u) <==> Has(net, u) || u == f.to;
    assert net'.air == now[1..] + (next + sent);
    MidRoundFlights(net, net', fl, k, now, next, sent);
    hide NodeOf, NodesOk, LogAt, FlightAt, Has, Accepts;
    forall v: Mac
      ensures InBall(fl, k + 1, v) ==> Has(net', v) || ReqTo(now[1..], v)
    {
      ReqToTail(now, v);
    }
    forall w: Mac, v: Mac | Has(net', w) && !InBall(fl, k, w) && Expands(fl, w) && v in Neighbours(fl.graph, w)
      ensures ReqTo(next + sent, v)
    {
      ReqToAppend(next, sent, v);
    }
  }

  lemma MidRoundFlights(net: Net, net': Net, fl: Flood, k: nat, now: seq<Flight>, next: seq<Flight>, sent: seq<Flight>)
    requires now != []
    requires forall f <- now :: FlightAt(net, fl, f, k + 1)
    requires forall f <- next :: FlightAt(net, fl, f, k + 2)
    requires forall f <- sent :: FlightAt(net', fl, f, k + 2)
    requires forall u: Mac :: Has(net, u) ==> Has(net', u)
    ensures forall f <- now[1..] :: FlightAt(net', fl, f, k + 1)
    ensures forall f <- next + sent :: FlightAt(net', fl, f, k + 2)
  {
    hide SentAt, Has;
    forall f <- now[1..]
      ensures FlightAt(net', fl, f, k + 1)
    {
      assert f in now;
    }
  }

  /** Delivering the next packet of a round within range. */
  lemma DeliverKeepsMidRound(net: Net, fl: Flood, k: nat, now: seq<Flight>, next: seq<Flight>)
      returns (next': seq<Flight>)
    requires Proper(fl) && k < Range(fl) && MidRound(net, fl, k, now, next) && now != []
    ensures MidRound(Next(fl.graph, net, Deliver(0)), fl, k, now[1..], next')
  {
    var f := now[0];
    var rest := net.(air := now[1..] + next);
    assert Without(net.air, 0) == now[1..] + next && net.air[0] == f;
    assert now[0] in now && FlightAt(net, fl, f, k + 1);
    assert forall u: Mac :: NodeOf(rest, u) == NodeOf(net, u);
    assert NodesOk(rest, fl);
    RangeIsShort(fl);
    if f.packet.Req? && !Has(net, f.to) {
      FloodReqArrives(fl, f, k + 1);
      assert f.to != fl.origin by { OriginIsInBalls(fl, k); }
      FirstReqAccepts(fl.graph, rest, fl, f, k);
      FirstReqSends(rest, fl, f, k);
      var sent := Emit(fl.graph, f.to, ReceiveSends(f.to, NodeOf(rest, f.to), f.packet));
      var net' := Next(fl.graph, net, Deliver(0));
      assert net' == Receive(fl.graph, rest, f);
      SourceStillHas(net, net', fl, f, k, now, next, sent);
      SentFlightsAt(net', fl, f, k, sent);
      hide *;
      AcceptKeepsMidRound(net, net', fl, k, now, next, sent);
      next' := next + sent;
    } else {
      IgnoredIsOnlyGone(fl.graph, rest, fl, f);
      IgnoredKeepsMidRound(net, Next(fl.graph, net, Deliver(0)), fl, k, now, next);
      next' := next;
    }
  }

  lemma RangeIsShort(fl: Flood)
    ensures Range(fl) <= 4 < TTL_DEFAULT
  {
  }

  lemma {:induction false} OriginIsInBalls(fl: Flood, k: nat)
    ensures InBall(fl, k, fl.origin)
  {
    if k > 0 {
      OriginIsInBalls(fl, k - 1);
    }
  }

  lemma SourceStillHas(net: Net, net': Net, fl: Flood, f: Flight, k: nat,
                       now: seq<Flight>, next: seq<Flight>, sent: seq<Flight>)
    requires MidRound(net, fl, k, now, next) && SentAt(fl, f, k + 1)
    requires now != [] && Accepts(net.(air := now[1..] + next), net', fl, f.to, k + 1, sent)
    ensures Has(net', f.packet.src)
  {
    hide InBall, Expands, ReqTo, FlightAt;
    assert Has(net, f.packet.src);
    assert NodeOf(net.(air := now[1..] + next), f.packet.src) == NodeOf(net, f.packet.src);
  }

  // ---------------------------------------------------------------- whole rounds

  /** What is left of a round after some picks. */
  function Left(now: seq<Flight>, picks: seq<nat>): (left: seq<Flight>)
    requires IsOrder(picks, |now|)
    ensures |left| == |now| - |picks|
  {
    if picks == [] then now else Without(Left(now, picks[..|picks| - 1]), picks[|picks| - 1])
  }

  /** The net with packet `i` of the round moved to the front. */
  function Fronted(net: Net, now: seq<Flight>, next: seq<Flight>, i: nat): Net
    requires i < |now|
  {
    net.(air := [now[i]] + Without(now, i) + next)
  }

  lemma ReqToMoved(now: seq<Flight>, i: nat, v: Mac)
    requires i < |now|
    ensures ReqTo([now[i]] + Without(now, i), v) <==> ReqTo(now, v)
  {
    assert now == now[..i] + ([now[i]] + now[i + 1..]);
    hide ReqTo;
    ReqToAppend(now[..i], [now[i]] + now[i + 1..], v);
    ReqToAppend([now[i]], now[i + 1..], v);
    ReqToAppend(now[..i], now[i + 1..], v);
    ReqToAppend([now[i]], Without(now, i), v);
  }

  lemma MidRoundMoved(net: Net, fl: Flood, k: nat, now: seq<Flight>, next: seq<Flight>, i: nat)
    requires MidRound(net, fl, k, now, next) && i < |now|
    ensures MidRound(Fronted(net, now, next, i), fl, k, [now[i]] + Without(now, i), next)
  {
    var moved := Fronted(net, now, next, i);
    SameNodesSameFlood(net, moved, fl);
    hide InBall, Expands, NodesOk, LogAt, FlightAt, Has, ReqTo, NodeOf;
    forall f <- [now[i]] + Without(now, i)
      ensures FlightAt(moved, fl, f, k + 1)
    {
      assert f in now;
    }
    forall v: Mac
      ensures ReqTo([now[i]] + Without(now, i), v) <==> ReqTo(now, v)
    {
      ReqToMoved(now, i, v);
    }
  }

  lemma SameNodesSameFlood(net: Net, other: Net, fl: Flood)
    requires other == net.(air := other.air)
    ensures NodesOk(other, fl) == NodesOk(net, fl) && LogAt(other, fl) == LogAt(net, fl)
    ensures forall v: Mac :: Has(other, v) == Has(net, v)
    ensures forall f: Flight, h: nat :: FlightAt(other, fl, f, h) == FlightAt(net, fl, f, h)
  {
    hide InBall, SentAt;
    assert forall v: Mac :: NodeOf(other, v) == NodeOf(net, v);
  }

  lemma DeliverMoved(g: Graph, net: Net, now: seq<Flight>, next: seq<Flight>, i: nat)
    requires net.air == now + next && i < |now|
    ensures Next(g, net, Deliver(i)) == Next(g, Fronted(net, now, next, i), Deliver(0))
  {
    hide Receive;
    var moved := Fronted(net, now, next, i);
    assert Without(net.air, i) == Without(now, i) + next == Without(moved.air, 0);
    assert net.(air := Without(net.air, i)) == moved.(air := Without(moved.air, 0));
  }

  /** Delivering any packet that is left of a round. */
  lemma PickKeepsMidRound(net: Net, fl: Flood, k: nat, now: seq<Flight>, next: seq<Flight>, i: nat)
      returns (next': seq<Flight>)
    requires Proper(fl) && k < Range(fl) && MidRound(net, fl, k, now, next) && i < |now|
    ensures MidRound(Next(fl.graph, net, Deliver(i)), fl, k, Without(now, i), next')
  {
    MidRoundMoved(net, fl, k, now, next, i);
    assert net.air == now + next;
    DeliverMoved(fl.graph, net, now, next, i);
    assert ([now[i]] + Without(now, i))[1..] == Without(now, i);
    hide MidRound, Next;
    next' := DeliverKeepsMidRound(Fronted(net, now, next, i), fl, k, [now[i]] + Without(now, i), next);
  }

  lemma {:induction false} DeliveriesKeepMidRound(net: Net, fl: Flood, k: nat, picks: seq<nat>)
      returns (next: seq<Flight>)
    requires Proper(fl) && k < Range(fl) && AfterRound(net, fl, k) && IsOrder(picks, |net.air|)
    ensures MidRound(Deliveries(fl.graph, net, picks), fl, k, Left(net.air, picks), next)
  {
    hide MidRound, AfterRound, Next;
    if picks == [] {
      next := [];
      RoundBegins(net, fl, k);
    } else {
      var init, i := picks[..|picks| - 1], picks[|picks| - 1];
      next := DeliveriesKeepMidRound(net, fl, k, init);
      next := PickKeepsMidRound(Deliveries(fl.graph, net, init), fl, k, Left(net.air, init), next, i);
    }
  }

  /** A round within range, delivered in any order, takes the flood from one ball to the next. */
  lemma RoundExpandsBall(net: Net, fl: Flood, k: nat, picks: seq<nat>)
    requires Proper(fl) && k < Range(fl) && AfterRound(net, fl, k)
    requires |picks| == |net.air| && IsOrder(picks, |net.air|)
    ensures AfterRound(Deliveries(fl.graph, net, picks), fl, k + 1)
  {
    hide MidRound, AfterRound, Deliveries;
    var next := DeliveriesKeepMidRound(net, fl, k, picks);
    assert Left(net.air, picks) == [];
    RoundEnds(Deliveries(fl.graph, net, picks), fl, k, next);
  }

  /** Out of range: what is in flight changes nothing any more. */
  ghost predicate Over(net: Net, fl: Flood) {
    && NodesOk(net, fl) && LogAt(net, fl)
    && (forall v: Mac :: Has(net, v) <==> InBall(fl, Range(fl), v))
    && (forall f <- net.air :: FlightAt(net, fl, f, Range(fl) + 1))
  }

  lemma OnlyGoneKeepsOver(net: Net, rest: Net, net': Net, fl: Flood, i: nat)
    requires Over(net, fl) && i < |net.air| && rest == net.(air := Without(net.air, i))
    requires OnlyGone(rest, net', rest.air)
    ensures Over(net', fl)
  {
    hide InBall, SentAt, Range;
    assert forall u: Mac :: NodeOf(rest, u) == NodeOf(net, u);
    assert forall u: Mac :: NodeOf(net', u) == NodeOf(net, u);
    forall h <- net'.air
      ensures FlightAt(net', fl, h, Range(fl) + 1)
    {
      assert h in net.air;
    }
  }

  lemma OverIsIgnored(net: Net, rest: Net, fl: Flood, i: nat)
    requires Proper(fl) && Over(net, fl) && i < |net.air| && rest == net.(air := Without(net.air, i))
    ensures OnlyGone(rest, Receive(fl.graph, rest, net.air[i]), rest.air)
  {
    var f := net.air[i];
    assert f in net.air && FlightAt(net, fl, f, Range(fl) + 1);
    RangeIsShort(fl);
    if f.packet.Req? {
      FloodReqArrives(fl, f, Range(fl) + 1);
    }
    assert forall u: Mac :: NodeOf(rest, u) == NodeOf(net, u);
    hide InBall, Range, Receive, Arrives, OnlyGone;
    IgnoredIsOnlyGone(fl.graph, rest, fl, f);
  }

  lemma DeliverKeepsOver(net: Net, fl: Flood, i: nat)
    requires Proper(fl) && Over(net, fl)
    ensures Over(Next(fl.graph, net, Deliver(i)), fl)
  {
    hide Over, OnlyGone, Receive;
    if i < |net.air| {
      var rest := net.(air := Without(net.air, i));
      OverIsIgnored(net, rest, fl, i);
      OnlyGoneKeepsOver(net, rest, Receive(fl.graph, rest, net.air[i]), fl, i);
    }
  }

  lemma {:induction false} DeliveriesKeepOver(net: Net, fl: Flood, picks: seq<nat>)
    requires Proper(fl) && Over(net, fl)
    ensures Over(Deliveries(fl.graph, net, picks), fl)
  {
    hide Over, Next;
    if picks != [] {
      DeliveriesKeepOver(net, fl, picks[..|picks| - 1]);
      DeliverKeepsOver(Deliveries(fl.graph, net, picks[..|picks| - 1]), fl, picks[|picks| - 1]);
    }
  }

  lemma RangeReached(net: Net, fl: Flood)
    requires AfterRound(net, fl, Range(fl))
    ensures Over(net, fl)
  {
  }

  function Min(a: nat, b: nat): nat {
    if a < b then a else b
  }

  function FirstReq(fl: Flood): Packet {
    Req(fl.id, fl.target, fl.origin, TTL_DEFAULT - 1, 1, [fl.origin])
  }

  lemma StartedNet(net: Net, fl: Flood, tick: nat)
    requires Pristine(net, fl) && fl.target != "" && fl.id == MessageId(fl.origin, tick)
    ensures var net' := Next(fl.graph, net, Start(fl.origin, fl.target, tick));
            && NodesOk(net', fl) && net'.log == []
            && (forall v: Mac :: Has(net', v) <==> v == fl.origin)
            && net'.air == Copies(Neighbours(fl.graph, fl.origin), FirstReq(fl))
  {
    var net' := Next(fl.graph, net, Start(fl.origin, fl.target, tick));
    hide MessageId, Escape;
    assert NodeOf(net, fl.origin).inserted == [];
    assert !Suppressed([], fl.id);
    assert NodeOf(net', fl.origin) == FRESH_NODE.(containerId := ContainerOf(fl, fl.origin), inserted := [fl.id]);
    assert forall v: Mac :: v != fl.origin ==> NodeOf(net', v) == NodeOf(net, v);
    assert [] + [fl.origin] == [fl.origin];
  }

  /** The network right after the flood has been launched. */
  lemma StartBeginsFlood(net: Net, fl: Flood, tick: nat)
    requires Pristine(net, fl) && fl.target != "" && fl.id == MessageId(fl.origin, tick)
    ensures Proper(fl) && AfterRound(Next(fl.graph, net, Start(fl.origin, fl.target, tick)), fl, 0)
  {
    assert Proper(fl) by { MessageIdIsPlain(fl.origin, tick); }
    StartedNet(net, fl, tick);
    hide *;
    LaunchedIsRoundZero(Next(fl.graph, net, Start(fl.origin, fl.target, tick)), fl);
  }

  lemma LaunchedIsRoundZero(net: Net, fl: Flood)
    requires NodesOk(net, fl) && net.log == [] && (forall v: Mac :: Has(net, v) <==> v == fl.origin)
    requires net.air == Copies(Neighbours(fl.graph, fl.origin), FirstReq(fl))
    ensures AfterRound(net, fl, 0)
  {
    FirstReqsReachFirstBall(fl, net.air);
    FirstReqsAreSent(net, fl);
    assert forall v: Mac :: InBall(fl, 0, v) <==> v == fl.origin;
    hide NodesOk, Has, InBall, ReqTo, FlightAt, Copies, Neighbours;
  }

  lemma FirstReqsAreSent(net: Net, fl: Flood)
    requires net.air == Copies(Neighbours(fl.graph, fl.origin), FirstReq(fl))
    ensures forall f <- net.air :: FlightAt(net, fl, f, 1)
  {
    forall f <- net.air
      ensures FlightAt(net, fl, f, 1)
    {
      assert f.packet == FirstReq(fl) && f.to in Neighbours(fl.graph, fl.origin);
      assert InBall(fl, 0, fl.origin);
    }
  }

  lemma FirstReqsReachFirstBall(fl: Flood, air: seq<Flight>)
    requires air == Copies(Neighbours(fl.graph, fl.origin), FirstReq(fl))
    ensures forall v: Mac :: InBall(fl, 1, v) ==> InBall(fl, 0, v) || ReqTo(air, v)
  {
    forall v: Mac | InBall(fl, 1, v) && !InBall(fl, 0, v)
      ensures ReqTo(air, v)
    {
      var w: Mac :| InBall(fl, 0, w) && Expands(fl, w) && v in Neighbours(fl.graph, w);
      assert w == fl.origin;
      var i :| 0 <= i < |Neighbours(fl.graph, fl.origin)| && Neighbours(fl.graph, fl.origin)[i] == v;
      assert air[i].packet.Req? && air[i].to == v;
    }
  }

  lemma {:induction false} RoundsFollowBalls(net: Net, fl: Flood, orders: seq<seq<nat>>)
    requires Proper(fl) && AfterRound(net, fl, 0) && AreRounds(fl.graph, net, orders)
    ensures |orders| <= Range(fl) ==> AfterRound(Rounds(fl.graph, net, orders), fl, |orders|)
    ensures |orders| >= Range(fl) ==> Over(Rounds(fl.graph, net, orders), fl)
  {
    hide AfterRound, Over, Deliveries, Range;
    var k := |orders|;
    if k > 0 {
      var init, last := orders[..k - 1], orders[k - 1];
      RoundsFollowBalls(net, fl, init);
      var before := Rounds(fl.graph, net, init);
      if k <= Range(fl) {
        RoundExpandsBall(before, fl, k - 1, last);
      } else {
        DeliveriesKeepOver(before, fl, last);
      }
    }
    if k == Range(fl) {
      RangeReached(Rounds(fl.graph, net, orders), fl);
    }
  }

  /** After any `k` rounds, each delivered in any order, exactly the nodes in the ball of radius min(k, range)
      have accepted the flood or launched it, and every acceptance happened at the hop that equals the node's
      distance. */
  lemma FloodIsBreadthFirst(net: Net, fl: Flood, tick: nat, orders: seq<seq<nat>>)
    requires Pristine(net, fl) && fl.target != "" && fl.id == MessageId(fl.origin, tick)
    requires AreRounds(fl.graph, Next(fl.graph, net, Start(fl.origin, fl.target, tick)), orders)
    ensures var end := Rounds(fl.graph, Next(fl.graph, net, Start(fl.origin, fl.target, tick)), orders);
            && (forall v: Mac :: NodeOf(end, v).inserted == [fl.id] <==> InBall(fl, Min(|orders|, Range(fl)), v))
            && (forall e <- end.log :: e.Accepted? ==>
                  e.hop >= 1 && InBall(fl, e.hop, e.node) && !InBall(fl, e.hop - 1, e.node))
  {
    StartBeginsFlood(net, fl, tick);
    var first := Next(fl.graph, net, Start(fl.origin, fl.target, tick));
    RoundsFollowBalls(first, fl, orders);
    hide *;
    BallHasFlood(Rounds(fl.graph, first, orders), fl, |orders|);
  }

  lemma BallHasFlood(net: Net, fl: Flood, k: nat)
    requires (k <= Range(fl) ==> AfterRound(net, fl, k)) && (k >= Range(fl) ==> Over(net, fl))
    ensures forall v: Mac :: NodeOf(net, v).inserted == [fl.id] <==> InBall(fl, Min(k, Range(fl)), v)
    ensures forall e <- net.log :: e.Accepted? ==>
              e.hop >= 1 && InBall(fl, e.hop, e.node) && !InBall(fl, e.hop - 1, e.node)
  {
    hide InBall, Range, FlightAt;
    assert NodesOk(net, fl);
    assert forall v: Mac :: NodeOf(net, v).inserted in {[], [fl.id]};
  }

  /** The range is four exactly for targets whose printed id is at most 26 characters long. */
  lemma RangeIsFourIffShort(fl: Flood)
    ensures Range(fl) == 4 <==> |Escape(fl.target)| <= 26
    ensures Range(fl) <= 4
  {
  }
}
