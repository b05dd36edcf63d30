/**
 A network of pathfinding nodes over a fixed radio graph. Packets in flight are delivered or lost one
 copy at a time, in any order, while floods start anywhere, container ids change and LED timers fire.
 */
module FloodNet {
  import opened DedupRing
  import opened MacText
  import opened Packets
  import opened FloodNode

  /** The nodes in radio range of each node, each listed once. */
  type Graph = map<Mac, seq<Mac>>

  /** One copy of a packet on its way to one node. */
  datatype Flight = Flight(to: Mac, packet: Packet)

  datatype Launch = Launch(origin: Mac, target: string, id: string)

  datatype Event =
    | Accepted(node: Mac, id: string, hop: nat)   // a REQ that was not suppressed
    | Forwarded(node: Mac, id: string)            // and broadcast again
    | Answered(node: Mac, id: string)             // and answered with an ACK
    | PathLit(node: Mac, id: string)              // an ACK that was not suppressed

  datatype Net = Net(nodes: map<Mac, NodeState>, air: seq<Flight>, launches: seq<Launch>, log: seq<Event>)

  datatype Step =
    | Start(node: Mac, target: string, tick: nat)
    | Deliver(i: nat)
    | Lose(i: nat)
    | SetContainer(node: Mac, containerId: string)
    | LedTimer(node: Mac, destOff: bool, pathOff: bool)

  function Neighbours(g: Graph, v: Mac): seq<Mac> {
    if v in g then g[v] else []
  }

  function NodeOf(net: Net, v: Mac): NodeState {
    if v in net.nodes then net.nodes[v] else FRESH_NODE
  }

  function Without(air: seq<Flight>, i: nat): seq<Flight>
    requires i < |air|
  {
    air[..i] + air[i + 1..]
  }

  /** A broadcast is one copy per neighbour. */
  function Copies(to: seq<Mac>, p: Packet): (r: seq<Flight>)
    ensures |r| == |to| && forall k :: 0 <= k < |r| ==> r[k] == Flight(to[k], p)
  {
    seq(|to|, k requires 0 <= k < |to| => Flight(to[k], p))
  }

  function Emit(g: Graph, v: Mac, out: Sending): seq<Flight> {
    match out
    case Nothing => []
    case Broadcast(p) => Copies(Neighbours(g, v), p)
    case Unicast(to, p) => [Flight(to, p)]
  }

  function EventsOf(v: Mac, s: NodeState, p: Packet): seq<Event> {
    if Suppressed(s.inserted, p.id) then []
    else if p.Ack? then [PathLit(v, p.id)]
    else
      [Accepted(v, p.id, p.hop)] +
      match ReceiveSends(v, s, p) {
        case Nothing => []
        case Broadcast(_) => [Forwarded(v, p.id)]
        case Unicast(_, _) => [Answered(v, p.id)]
      }
  }

  /** A copy reaches its node: cut packets fail to parse, the others run the callback. */
  function Receive(g: Graph, net: Net, f: Flight): Net {
    if !Arrives(f.packet) then net
    else
      var s := NodeOf(net, f.to);
      Net(net.nodes[f.to := AfterReceive(s, f.packet)],
          net.air + Emit(g, f.to, ReceiveSends(f.to, s, f.packet)),
          net.launches,
          net.log + EventsOf(f.to, s, f.packet))
  }

  /** What the callback on an arriving packet changes, and what it leaves alone. */
  lemma ReceiveEffect(g: Graph, net: Net, f: Flight)
    requires Arrives(f.packet)
    ensures var s, net' := NodeOf(net, f.to), Receive(g, net, f);
            && NodeOf(net', f.to) == AfterReceive(s, f.packet)
            && (forall v: Mac :: v != f.to ==> NodeOf(net', v) == NodeOf(net, v))
            && net'.air == net.air + Emit(g, f.to, ReceiveSends(f.to, s, f.packet))
            && net'.launches == net.launches && net'.log == net.log + EventsOf(f.to, s, f.packet)
  {
    hide AfterReceive, ReceiveSends, Emit, EventsOf, Arrives;
  }

  /** The network does not change but for the packet that is gone. */
  ghost predicate OnlyGone(net: Net, net': Net, air: seq<Flight>) {
    net'.air == air && net'.log == net.log && forall v: Mac :: NodeOf(net', v) == NodeOf(net, v)
  }

  lemma SuppressedIsIgnored(g: Graph, net: Net, f: Flight)
    requires Arrives(f.packet) ==> Suppressed(NodeOf(net, f.to).inserted, f.packet.id)
    ensures OnlyGone(net, Receive(g, net, f), net.air)
  {
    hide Arrives, Suppressed, SendAck, FloodReq;
  }

  function Next(g: Graph, net: Net, step: Step): Net {
    match step
    case Start(v, target, tick) =>
      if target == "" then net
      else
        net.(nodes := net.nodes[v := AfterStart(v, NodeOf(net, v), target, tick)],
             air := net.air + Emit(g, v, StartSends(v, target, tick)),
             launches := net.launches + [Launch(v, target, MessageId(v, tick))])
    case Deliver(i) =>
      if i < |net.air| then Receive(g, net.(air := Without(net.air, i)), net.air[i]) else net
    case Lose(i) =>
      if i < |net.air| then net.(air := Without(net.air, i)) else net
    case SetContainer(v, containerId) =>
      net.(nodes := net.nodes[v := NodeOf(net, v).(containerId := containerId)])
    case LedTimer(v, destOff, pathOff) =>
      var s := NodeOf(net, v);
      net.(nodes := net.nodes[v := s.(destLed := s.destLed && !destOff, pathLed := s.pathLed && !pathOff)])
  }

  /** What launching a flood changes, and what it leaves alone. */
  lemma StartEffect(g: Graph, net: Net, v: Mac, target: string, tick: nat)
    requires target != ""
    ensures var net' := Next(g, net, Start(v, target, tick));
            && NodeOf(net', v) == AfterStart(v, NodeOf(net, v), target, tick)
            && (forall u: Mac :: u != v ==> NodeOf(net', u) == NodeOf(net, u))
            && net'.air == net.air + Emit(g, v, StartSends(v, target, tick))
            && net'.launches == net.launches + [Launch(v, target, MessageId(v, tick))] && net'.log == net.log
  {
    hide AfterStart, StartSends, Emit, MessageId;
  }

  const SILENT := Net(map[], [], [], [])

  function Run(g: Graph, net: Net, steps: seq<Step>): Net {
    if steps == [] then net else Next(g, Run(g, net, steps[..|steps| - 1]), steps[|steps| - 1])
  }

  // ---------------------------------------------------------------- paths

  /** The route as the packet spells it: the originator once, every forwarder twice. */
  function Doubled(route: seq<Mac>): seq<Mac> {
    if |route| <= 1 then route else Doubled(route[..|route| - 1]) + [route[|route| - 1], route[|route| - 1]]
  }

  /** The nodes that transmitted, read off a path. */
  function Route(path: seq<Mac>): seq<Mac> {
    if |path| <= 2 then path[..if |path| == 0 then 0 else 1] else Route(path[..|path| - 2]) + [path[|path| - 1]]
  }

  predicate IsWalk(g: Graph, walk: seq<Mac>) {
    forall k :: 0 < k < |walk| ==> walk[k] in Neighbours(g, walk[k - 1])
  }

  /** A walk of `k` radio hops leads from `u` to `v`. */
  ghost predicate Reach(g: Graph, u: Mac, v: Mac, k: nat) {
    exists walk: seq<Mac> :: |walk| == k + 1 && walk[0] == u && walk[k] == v && IsWalk(g, walk)
  }

  lemma DoubledExtends(route: seq<Mac>, v: Mac)
    requires route != []
    ensures Doubled(route + [v]) == Doubled(route) + [v, v]
    ensures Route(Doubled(route) + [v, v]) == Route(Doubled(route)) + [v]
  {
    assert (route + [v])[..|route|] == route;
    DoubledLength(route);
    var p := Doubled(route) + [v, v];
    assert p[..|p| - 2] == Doubled(route);
  }

  lemma {:induction false} DoubledLength(route: seq<Mac>)
    ensures |Doubled(route)| == if route == [] then 0 else 2 * |route| - 1
    ensures route != [] ==> Doubled(route)[0] == route[0] && Doubled(route)[|Doubled(route)| - 1] == route[|route| - 1]
  {
    if |route| > 1 {
      DoubledLength(route[..|route| - 1]);
    }
  }

  /** Every transmission a path records is a pair: entries 2k-1 and 2k are the k-th forwarder. */
  lemma {:induction false} ForwardersArePaired(route: seq<Mac>, k: nat)
    requires 0 < k < |route|
    ensures |Doubled(route)| == 2 * |route| - 1
    ensures Doubled(route)[2 * k - 1] == route[k] == Doubled(route)[2 * k]
  {
    DoubledLength(route);
    DoubledLength(route[..|route| - 1]);
    if k < |route| - 1 {
      ForwardersArePaired(route[..|route| - 1], k);
    }
  }

  // ---------------------------------------------------------------- run invariant

  /** The path of a REQ spells out `route`, which starts at a node that launched this flood, follows
      radio links, and ends at the sender; hop and TTL count it. */
  ghost predicate ReqOn(g: Graph, launches: seq<Launch>, f: Flight, route: seq<Mac>) {
    var p := f.packet;
    && p.Req? && route != []
    && p.path == Doubled(route)
    && p.hop == |route| && p.ttl + p.hop == TTL_DEFAULT
    && p.src == route[|route| - 1]
    && IsWalk(g, route + [f.to])
    && Launch(route[0], p.dst, p.id) in launches
  }

  /** The path of an ACK spells out `route` and then the target; the ACK is on its way to the last
      forwarder, which is also the entry it would be sent to next. */
  ghost predicate AckOn(g: Graph, launches: seq<Launch>, f: Flight, route: seq<Mac>) {
    var p := f.packet;
    && p.Ack? && route != [] && |route| <= TTL_DEFAULT
    && p.path != [] && p.path == Doubled(route) + [p.path[|p.path| - 1]]
    && f.to == route[|route| - 1]
    && IsWalk(g, route + [p.path[|p.path| - 1]])
    && Launch(route[0], p.dst, p.id) in launches
  }

  ghost predicate FlightOk(g: Graph, launches: seq<Launch>, f: Flight) {
    exists route: seq<Mac> :: if f.packet.Req? then ReqOn(g, launches, f, route) else AckOn(g, launches, f, route)
  }

  ghost predicate LaunchesOk(launches: seq<Launch>) {
    forall l <- launches :: l.target != "" && exists tick: nat :: l.id == MessageId(l.origin, tick)
  }

  ghost predicate Inv(g: Graph, net: Net) {
    LaunchesOk(net.launches) && forall f <- net.air :: FlightOk(g, net.launches, f)
  }

  lemma FlightOkGrows(g: Graph, launches: seq<Launch>, f: Flight, l: Launch)
    requires FlightOk(g, launches, f)
    ensures FlightOk(g, launches + [l], f)
  {
    var route :| if f.packet.Req? then ReqOn(g, launches, f, route) else AckOn(g, launches, f, route);
    assert if f.packet.Req? then ReqOn(g, launches + [l], f, route) else AckOn(g, launches + [l], f, route);
  }

  lemma WalkExtends(g: Graph, walk: seq<Mac>, v: Mac)
    requires walk != [] && IsWalk(g, walk) && v in Neighbours(g, walk[|walk| - 1])
    ensures IsWalk(g, walk + [v])
  {
  }

  lemma AckReplyIsOk(g: Graph, launches: seq<Launch>, f: Flight, s: NodeState, route: seq<Mac>)
    requires AckOn(g, launches, f, route)
    ensures forall h <- Emit(g, f.to, ReceiveSends(f.to, s, f.packet)) :: FlightOk(g, launches, h)
  {
    var p := f.packet;
    DoubledLength(route);
    AckGoesToPreviousEntry(p.id, p.dst, p.path);
    assert AckOn(g, launches, Flight(f.to, p), route);
  }

  lemma AnswerIsOk(g: Graph, launches: seq<Launch>, f: Flight, route: seq<Mac>)
    requires ReqOn(g, launches, f, route)
    ensures var p := f.packet;
            forall h <- Emit(g, f.to, SendAck(p.id, p.dst, p.path + [f.to])) :: FlightOk(g, launches, h)
  {
    var p := f.packet;
    var path := p.path + [f.to];
    DoubledLength(route);
    AckGoesToPreviousEntry(p.id, p.dst, path);
    hide Doubled;
    assert AckOn(g, launches, Flight(route[|route| - 1], Ack(p.id, p.dst, path)), route);
  }

  /** What a node sends in reply to a well-formed flight is well-formed. */
  lemma ReplyIsOk(g: Graph, launches: seq<Launch>, f: Flight, s: NodeState)
    requires FlightOk(g, launches, f)
    ensures forall h <- Emit(g, f.to, ReceiveSends(f.to, s, f.packet)) :: FlightOk(g, launches, h)
  {
    hide ReqOn, AckOn, SendAck, Suppressed;
    var p := f.packet;
    if p.Ack? {
      var route :| AckOn(g, launches, f, route);
      AckReplyIsOk(g, launches, f, s, route);
    } else {
      var route :| ReqOn(g, launches, f, route);
      AnswerIsOk(g, launches, f, route);
      if p.ttl > 0 {
        ForwardIsOk(g, launches, f, route);
      }
    }
  }

  lemma ForwardIsOk(g: Graph, launches: seq<Launch>, f: Flight, route: seq<Mac>)
    requires ReqOn(g, launches, f, route) && f.packet.ttl > 0
    ensures var p := f.packet;
            var q := Req(p.id, p.dst, f.to, p.ttl - 1, p.hop + 1, p.path + [f.to] + [f.to]);
            forall h <- Copies(Neighbours(g, f.to), q) ::
              ReqOn(g, launches, h, route + [f.to]) && FlightOk(g, launches, h)
  {
    var p := f.packet;
    var q := Req(p.id, p.dst, f.to, p.ttl - 1, p.hop + 1, p.path + [f.to] + [f.to]);
    var longer := route + [f.to];
    DoubledExtends(route, f.to);
    assert p.path + [f.to] + [f.to] == Doubled(longer);
    hide Doubled;
    forall h <- Copies(Neighbours(g, f.to), q)
      ensures ReqOn(g, launches, h, longer) && FlightOk(g, launches, h)
    {
      WalkExtends(g, longer, h.to);
    }
  }

  lemma StartIsOk(g: Graph, launches: seq<Launch>, v: Mac, target: string, tick: nat)
    requires target != "" && Launch(v, target, MessageId(v, tick)) in launches
    ensures forall h <- Emit(g, v, StartSends(v, target, tick)) :: ReqOn(g, launches, h, [v])
  {
    assert [] + [v] == [v];
  }

  lemma StepKeepsInv(g: Graph, net: Net, step: Step)
    requires Inv(g, net)
    ensures Inv(g, Next(g, net, step))
  {
    hide FlightOk, Arrives, AfterReceive, ReceiveSends, StartSends, AfterStart, Emit, MessageId, EventsOf;
    match step
    case Start(v, target, tick) =>
      if target != "" {
        var l := Launch(v, target, MessageId(v, tick));
        var launches := net.launches + [l];
        forall f <- net.air
          ensures FlightOk(g, launches, f)
        {
          FlightOkGrows(g, net.launches, f, l);
        }
        StartIsOk(g, launches, v, target, tick);
        StartFlightsOk(g, launches, v, target, tick);
      }
    case Deliver(i) =>
      if i < |net.air| {
        var f := net.air[i];
        assert FlightOk(g, net.launches, f);
        ReplyIsOk(g, net.launches, f, NodeOf(net, f.to));
      }
    case Lose(i) =>
    case SetContainer(v, containerId) =>
    case LedTimer(v, destOff, pathOff) =>
  }

  lemma StartFlightsOk(g: Graph, launches: seq<Launch>, v: Mac, target: string, tick: nat)
    requires target != "" && Launch(v, target, MessageId(v, tick)) in launches
    ensures forall h <- Emit(g, v, StartSends(v, target, tick)) :: FlightOk(g, launches, h)
  {
    StartIsOk(g, launches, v, target, tick);
    forall h <- Emit(g, v, StartSends(v, target, tick))
      ensures FlightOk(g, launches, h)
    {
      assert ReqOn(g, launches, h, [v]);
    }
  }

  lemma {:induction false} RunKeepsInv(g: Graph, steps: seq<Step>)
    ensures Inv(g, Run(g, SILENT, steps))
  {
    if steps != [] {
      RunKeepsInv(g, steps[..|steps| - 1]);
      StepKeepsInv(g, Run(g, SILENT, steps[..|steps| - 1]), steps[|steps| - 1]);
    }
  }

  /** In every run, every REQ in flight: ttl + hop == 8, 1 <= hop <= 8, the path has 2 * hop - 1 entries,
      starts at a node that launched the flood, ends at the sender, and the sender is a radio
      neighbour of the receiver; so at the target the path has at most 16 entries and its
      second-to-last entry is the neighbour the REQ came from. */
  lemma ReqInFlight(g: Graph, steps: seq<Step>, f: Flight)
    requires f in Run(g, SILENT, steps).air && f.packet.Req?
    ensures var p := f.packet;
            && p.ttl + p.hop == 8 && 1 <= p.hop <= 8
            && |p.path| == 2 * p.hop - 1
            && Launch(p.path[0], p.dst, p.id) in Run(g, SILENT, steps).launches
            && p.path[|p.path| - 1] == p.src && f.to in Neighbours(g, p.src)
            && (p.path + [f.to])[|p.path + [f.to]| - 2] == p.src && |p.path + [f.to]| <= 16
            && (forall k :: 0 < k < p.hop ==> p.path[2 * k - 1] == p.path[2 * k]
                                              && p.path[2 * k - 1] in Neighbours(g, p.path[2 * k - 2]))
  {
    RunKeepsInv(g, steps);
    var launches := Run(g, SILENT, steps).launches;
    hide Run;
    assert FlightOk(g, launches, f);
    var route :| ReqOn(g, launches, f, route);
    ReqPath(g, launches, f, route);
  }

  lemma ReqPath(g: Graph, launches: seq<Launch>, f: Flight, route: seq<Mac>)
    requires ReqOn(g, launches, f, route)
    ensures var p := f.packet;
            && 1 <= p.hop <= 8 && |p.path| == 2 * p.hop - 1
            && p.path[0] == route[0] && p.path[|p.path| - 1] == p.src && f.to in Neighbours(g, p.src)
            && (forall k :: 0 < k < p.hop ==> p.path[2 * k - 1] == p.path[2 * k]
                                              && p.path[2 * k - 1] in Neighbours(g, p.path[2 * k - 2]))
  {
    var p := f.packet;
    DoubledLength(route);
    var walk := route + [f.to];
    assert walk[|route|] in Neighbours(g, walk[|route| - 1]);
    forall k | 0 < k < p.hop
      ensures p.path[2 * k - 1] == p.path[2 * k] && p.path[2 * k - 1] in Neighbours(g, p.path[2 * k - 2])
    {
      ForwardersArePaired(route, k);
      if k > 1 {
        ForwardersArePaired(route, k - 1);
      }
      assert walk[k] in Neighbours(g, walk[k - 1]);
    }
  }

  /** In every run, every ACK in flight is addressed to the last forwarder of its path: the path is
      never shortened, so an ACK that is passed on goes back to the node that passes it on. */
  lemma AckInFlight(g: Graph, steps: seq<Step>, f: Flight, s: NodeState)
    requires f in Run(g, SILENT, steps).air && f.packet.Ack?
    ensures |f.packet.path| >= 2 && f.packet.path[|f.packet.path| - 2] == f.to
    ensures ReceiveSends(f.to, s, f.packet)
            == if Suppressed(s.inserted, f.packet.id) then Nothing else Unicast(f.to, f.packet)
  {
    RunKeepsInv(g, steps);
    var launches := Run(g, SILENT, steps).launches;
    hide Run;
    assert FlightOk(g, launches, f);
    var route :| AckOn(g, launches, f, route);
    DoubledLength(route);
    AckGoesToPreviousEntry(f.packet.id, f.packet.dst, f.packet.path);
  }

  // ---------------------------------------------------------------- LEDs, over all steps

  /** The step delivers to `v` an arriving packet that `v` has not taken in yet. */
  predicate DeliversFresh(net: Net, step: Step, v: Mac) {
    step.Deliver? && step.i < |net.air| && net.air[step.i].to == v && Arrives(net.air[step.i].packet)
    && !Suppressed(NodeOf(net, v).inserted, net.air[step.i].packet.id)
  }

  /** The packet that a delivering step delivers. */
  function Delivered(net: Net, step: Step): Packet
    requires step.Deliver? && step.i < |net.air|
  {
    net.air[step.i].packet
  }

  /** The DEST LED of a node comes on exactly when a fresh REQ for its own container id arrives, the PATH LED
      exactly when a fresh ACK does; only the LED timer switches them off; and only SetContainer changes the id. */
  lemma LedsFollowDeliveries(g: Graph, net: Net, step: Step, v: Mac)
    ensures var s, t := NodeOf(net, v), NodeOf(Next(g, net, step), v);
            var off := step.LedTimer? && step.node == v;
            && (t.destLed <==>
                  || (s.destLed && !(off && step.destOff))
                  || (DeliversFresh(net, step, v) && Delivered(net, step).Req?
                      && s.containerId != "" && s.containerId == Delivered(net, step).dst))
            && (t.pathLed <==>
                  || (s.pathLed && !(off && step.pathOff))
                  || (DeliversFresh(net, step, v) && Delivered(net, step).Ack?))
            && t.containerId == if step.SetContainer? && step.node == v then step.containerId else s.containerId
  {
    hide Arrives, Suppressed, ReceiveSends, AfterSeen, EventsOf, Emit, MessageId;
    match step
    case Deliver(i) =>
      if i < |net.air| {
        DeliverLeds(g, net, i, v);
      }
    case _ =>
  }

  lemma DeliverLeds(g: Graph, net: Net, i: nat, v: Mac)
    requires i < |net.air|
    ensures var s, t := NodeOf(net, v), NodeOf(Next(g, net, Deliver(i)), v);
            var here, p := DeliversFresh(net, Deliver(i), v), net.air[i].packet;
            && (t.destLed <==> s.destLed || (here && p.Req? && s.containerId != "" && s.containerId == p.dst))
            && (t.pathLed <==> s.pathLed || (here && p.Ack?))
            && t.containerId == s.containerId
  {
    var f := net.air[i];
    var rest := net.(air := Without(net.air, i));
    assert NodeOf(rest, v) == NodeOf(net, v) && NodeOf(rest, f.to) == NodeOf(net, f.to);
    if Arrives(f.packet) {
      ReceiveEffect(g, rest, f);
      ReceiveSpeltOut(f.to, NodeOf(net, f.to), f.packet);
    }
    hide Arrives, Suppressed, ReceiveSends, AfterSeen, EventsOf, Emit, AfterReceive, Without;
  }

  /** In every run a lit DEST LED was lit by a delivery of a fresh REQ for the container id the node had then. */
  lemma {:induction false} DestLedWasLitByTarget(g: Graph, steps: seq<Step>, v: Mac)
    requires NodeOf(Run(g, SILENT, steps), v).destLed
    ensures exists k: nat :: k < |steps| &&
              var net := Run(g, SILENT, steps[..k]);
              DeliversFresh(net, steps[k], v) && Delivered(net, steps[k]).Req?
              && NodeOf(net, v).containerId != "" && NodeOf(net, v).containerId == Delivered(net, steps[k]).dst
  {
    hide Next, Arrives, Suppressed;
    var n := |steps| - 1;
    assert steps != [];
    var before := Run(g, SILENT, steps[..n]);
    LedsFollowDeliveries(g, before, steps[n], v);
    if NodeOf(before, v).destLed {
      DestLedWasLitByTarget(g, steps[..n], v);
      var k: nat :| k < n &&
        var net := Run(g, SILENT, steps[..n][..k]);
        DeliversFresh(net, steps[..n][k], v) && Delivered(net, steps[..n][k]).Req?
        && NodeOf(net, v).containerId != "" && NodeOf(net, v).containerId == Delivered(net, steps[..n][k]).dst;
      assert steps[..n][..k] == steps[..k] && steps[..n][k] == steps[k];
    }
  }

  /** What the log says of a delivery is what happened: an acceptance for a fresh REQ, with its hop; a forward or
      an answer for what the node sent on it; and a lit PATH LED for a fresh ACK. */
  lemma LogTellsDelivery(g: Graph, net: Net, f: Flight)
    requires Arrives(f.packet)
    ensures var s, p := NodeOf(net, f.to), f.packet;
            var fresh', sends := !Suppressed(s.inserted, p.id), ReceiveSends(f.to, s, p);
            var news := Receive(g, net, f).log[|net.log|..];
            && |news| <= 2
            && (Accepted(f.to, p.id, if p.Req? then p.hop else 0) in news <==> fresh' && p.Req?)
            && (Forwarded(f.to, p.id) in news <==> fresh' && p.Req? && sends.Broadcast?)
            && (Answered(f.to, p.id) in news <==> fresh' && p.Req? && sends.Unicast?)
            && (PathLit(f.to, p.id) in news <==> fresh' && p.Ack?)
  {
    ReceiveEffect(g, net, f);
    var s := NodeOf(net, f.to);
    hide Arrives, Suppressed, ReceiveSends, AfterReceive, Emit, Receive, EventsOf, NodeOf;
    assert Receive(g, net, f).log[|net.log|..] == EventsOf(f.to, s, f.packet);
    EventsSpeltOut(f.to, s, f.packet);
  }

  lemma EventsSpeltOut(v: Mac, s: NodeState, p: Packet)
    ensures var fresh', sends, news := !Suppressed(s.inserted, p.id), ReceiveSends(v, s, p), EventsOf(v, s, p);
            && |news| <= 2
            && (Accepted(v, p.id, if p.Req? then p.hop else 0) in news <==> fresh' && p.Req?)
            && (Forwarded(v, p.id) in news <==> fresh' && p.Req? && sends.Broadcast?)
            && (Answered(v, p.id) in news <==> fresh' && p.Req? && sends.Unicast?)
            && (PathLit(v, p.id) in news <==> fresh' && p.Ack?)
  {
    hide Suppressed, ReceiveSends;
  }

  /** A node that has taken in one flood of an originator accepts the next one exactly if the two were started at
      ticks that differ modulo 100000. */
  lemma SecondFloodIsAcceptedIff(g: Graph, net: Net, f: Flight, origin: Mac, first: nat, second: nat)
    requires NodeOf(net, f.to).inserted == [MessageId(origin, first)]
    requires f.packet.Req? && f.packet.id == MessageId(origin, second) && Arrives(f.packet)
    ensures Accepted(f.to, f.packet.id, f.packet.hop) in Receive(g, net, f).log[|net.log|..]
            <==> first % 100000 != second % 100000
  {
    SameIdIff(origin, first, origin, second);
    LogTellsDelivery(g, net, f);
    hide Arrives, MessageId, Receive;
    var old' := MessageId(origin, first);
    assert Window([old']) == [old'] && [old'][0] == old';
    assert |f.packet.id| == ID_LENGTH;
  }
}
