/**
 How far a pathfinding flood gets: the 250-byte cut stops it after four hops, long before the TTL.
 */
module FloodRadius {
  import opened DedupRing
  import opened MacText
  import opened JsonText
  import opened Packets
  import opened FloodNode
  import opened FloodNet

  const RADIUS: nat := 4

  /** The REQ sent at hop `h` for a target of printed length L is exactly 64 + L + 40 h bytes long, so it
      is received exactly when L + 40 h <= 186: never from hop 5 on, and at hop 4 only if L <= 26. */
  lemma ReqSize(g: Graph, launches: seq<Launch>, f: Flight, route: seq<Mac>)
    requires ReqOn(g, launches, f, route) && LaunchesOk(launches)
    ensures |PacketText(f.packet)| == 64 + |Escape(f.packet.dst)| + 40 * f.packet.hop
    ensures Arrives(f.packet) <==> |Escape(f.packet.dst)| + 40 * f.packet.hop <= 186
    ensures Arrives(f.packet) ==> f.packet.hop <= RADIUS
  {
    hide Doubled, PacketText, Arrives, Escape, MessageId, IsWalk;
    var p := f.packet;
    DoubledLength(route);
    var l := Launch(route[0], p.dst, p.id);
    var tick: nat :| p.id == MessageId(l.origin, tick);
    MessageIdIsPlain(l.origin, tick);
    ReqLength(p);
    ArrivesIffFits(p);
  }

  /** Something a flood launched at `l` did, at most four radio hops from where it was launched. */
  ghost predicate NearLaunch(g: Graph, e: Event, l: Launch, k: nat) {
    l.id == e.id && k <= RADIUS && Reach(g, l.origin, e.node, k) && (e.Accepted? ==> k == e.hop)
  }

  ghost predicate Near(g: Graph, launches: seq<Launch>, e: Event) {
    exists l: Launch, k: nat :: l in launches && NearLaunch(g, e, l, k)
  }

  ghost predicate WithinRadius(g: Graph, net: Net) {
    && Inv(g, net)
    && (forall e <- net.log :: Near(g, net.launches, e))
    && (forall f <- net.air :: f.packet.Ack? ==> |f.packet.path| <= 2 * RADIUS)
  }

  lemma NearGrows(g: Graph, launches: seq<Launch>, e: Event, l: Launch)
    requires Near(g, launches, e)
    ensures Near(g, launches + [l], e)
  {
    var l', k :| l' in launches && NearLaunch(g, e, l', k);
    assert l' in launches + [l];
  }

  lemma WalkReaches(g: Graph, walk: seq<Mac>)
    requires walk != [] && IsWalk(g, walk)
    ensures Reach(g, walk[0], walk[|walk| - 1], |walk| - 1)
  {
  }

  /** A REQ that arrives was launched within four hops of its receiver. */
  lemma AcceptedNear(g: Graph, launches: seq<Launch>, f: Flight, e: Event)
    requires f.packet.Req? && FlightOk(g, launches, f) && LaunchesOk(launches) && Arrives(f.packet)
    requires e.node == f.to && e.id == f.packet.id && (e.Accepted? ==> e.hop == f.packet.hop)
    ensures Near(g, launches, e) && |f.packet.path| < 2 * RADIUS
  {
    hide Arrives, Doubled;
    var route :| ReqOn(g, launches, f, route);
    ReqSize(g, launches, f, route);
    DoubledLength(route);
    WalkReaches(g, route + [f.to]);
    var l := Launch(route[0], f.packet.dst, f.packet.id);
    assert NearLaunch(g, e, l, f.packet.hop);
  }

  lemma PathLitNear(g: Graph, launches: seq<Launch>, f: Flight, e: Event)
    requires f.packet.Ack? && FlightOk(g, launches, f) && |f.packet.path| <= 2 * RADIUS
    requires e.PathLit? && e.node == f.to && e.id == f.packet.id
    ensures Near(g, launches, e)
  {
    hide Doubled;
    var route :| AckOn(g, launches, f, route);
    DoubledLength(route);
    var walk := route + [f.packet.path[|f.packet.path| - 1]];
    forall k | 0 < k < |route|
      ensures route[k] in Neighbours(g, route[k - 1])
    {
      assert walk[k] in Neighbours(g, walk[k - 1]);
    }
    WalkReaches(g, route);
    var l := Launch(route[0], f.packet.dst, f.packet.id);
    assert NearLaunch(g, e, l, |route| - 1);
  }

  lemma ReceiveStaysNear(g: Graph, net: Net, f: Flight)
    requires WithinRadius(g, net) && FlightOk(g, net.launches, f)
    requires f.packet.Ack? ==> |f.packet.path| <= 2 * RADIUS
    ensures var net' := Receive(g, net, f);
            && (forall e <- net'.log :: Near(g, net.launches, e))
            && (forall h <- net'.air :: h.packet.Ack? ==> |h.packet.path| <= 2 * RADIUS)
  {
    hide Arrives, Near, FlightOk, Suppressed, AfterReceive, MacString, ParseMac;
    if Arrives(f.packet) {
      var s := NodeOf(net, f.to);
      forall e <- EventsOf(f.to, s, f.packet)
        ensures Near(g, net.launches, e)
      {
        if f.packet.Req? {
          AcceptedNear(g, net.launches, f, e);
        } else {
          PathLitNear(g, net.launches, f, e);
        }
      }
      if f.packet.Req? {
        AcceptedNear(g, net.launches, f, Accepted(f.to, f.packet.id, f.packet.hop));
      }
    }
  }

  lemma StepStaysNear(g: Graph, net: Net, step: Step)
    requires WithinRadius(g, net)
    ensures WithinRadius(g, Next(g, net, step))
  {
    StepKeepsInv(g, net, step);
    hide Near, FlightOk, Inv, Receive, MessageId;
    match step
    case Start(v, target, tick) =>
      if target != "" {
        forall e <- net.log
          ensures Near(g, net.launches + [Launch(v, target, MessageId(v, tick))], e)
        {
          NearGrows(g, net.launches, e, Launch(v, target, MessageId(v, tick)));
        }
      }
    case Deliver(i) =>
      if i < |net.air| {
        var rest := net.(air := Without(net.air, i));
        InvOfRest(g, net, i);
        ReceiveStaysNear(g, rest, net.air[i]);
      }
    case Lose(i) =>
    case SetContainer(v, containerId) =>
    case LedTimer(v, destOff, pathOff) =>
  }

  lemma InvOfRest(g: Graph, net: Net, i: nat)
    requires Inv(g, net) && i < |net.air|
    ensures Inv(g, net.(air := Without(net.air, i))) && FlightOk(g, net.launches, net.air[i])
    ensures forall f <- Without(net.air, i) :: f in net.air
    ensures forall f: Flight :: Receive(g, net.(air := Without(net.air, i)), f).launches == net.launches
  {
  }

  /** In every run, over any radio graph, everything a flood does - accepting, forwarding, answering,
      lighting a PATH LED - happens within four radio hops of a node that launched it. */
  lemma {:induction false} FloodRadiusIsFour(g: Graph, steps: seq<Step>)
    ensures WithinRadius(g, Run(g, SILENT, steps))
  {
    hide WithinRadius, Next;
    if steps == [] {
      assert WithinRadius(g, SILENT) by { SilentIsNear(g); }
    } else {
      FloodRadiusIsFour(g, steps[..|steps| - 1]);
      StepStaysNear(g, Run(g, SILENT, steps[..|steps| - 1]), steps[|steps| - 1]);
    }
  }

  lemma SilentIsNear(g: Graph)
    ensures WithinRadius(g, SILENT)
  {
  }

  lemma EventsAreNear(g: Graph, steps: seq<Step>, e: Event)
    requires e in Run(g, SILENT, steps).log
    ensures exists l: Launch, k: nat ::
              l in Run(g, SILENT, steps).launches && l.id == e.id && k <= 4 && Reach(g, l.origin, e.node, k)
              && (e.Accepted? ==> k == e.hop)
  {
    FloodRadiusIsFour(g, steps);
    var net := Run(g, SILENT, steps);
    hide Run;
    var l: Launch, k: nat :| l in net.launches && NearLaunch(g, e, l, k);
  }
}
