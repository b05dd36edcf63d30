/**
 Runs in which at most 32 different message ids are launched, so that no duplicate buffer ever forgets:
 every node forwards a flood at most once, every ACK is quenched where it first arrives, and no PATH
 LED lights up.
 */
module FloodOnce {
  import opened DedupRing
  import opened MacText
  import opened Packets
  import opened FloodNode
  import opened FloodNet

  function LaunchIds(launches: seq<Launch>): set<string> {
    set l <- launches :: l.id
  }

  predicate Holds(net: Net, v: Mac, id: string) {
    id in NodeOf(net, v).inserted
  }

  /** Transmissions that must not repeat. */
  predicate Transmission(e: Event) {
    e.Forwarded? || e.Answered?
  }

  predicate NoRepeat(log: seq<Event>) {
    forall i, j :: 0 <= i < j < |log| && Transmission(log[i]) ==> log[i] != log[j]
  }

  /** The buffers hold distinct launched ids, and no PATH LED is lit. */
  ghost predicate BuffersOk(net: Net) {
    && (forall v: Mac :: Distinct(NodeOf(net, v).inserted) && !NodeOf(net, v).pathLed)
    && (forall v: Mac, id: string :: Holds(net, v, id) ==> id in LaunchIds(net.launches))
    && (forall id <- LaunchIds(net.launches) :: |id| == ID_LENGTH)
  }

  /** The sender of a REQ and the receiver of an ACK hold its id. */
  ghost predicate FlightHeld(net: Net, f: Flight) {
    && f.packet.id in LaunchIds(net.launches)
    && (f.packet.Req? ==>
          f.packet.path != [] && f.packet.src == f.packet.path[|f.packet.path| - 1]
          && Holds(net, f.packet.src, f.packet.id))
    && (f.packet.Ack? ==> Holds(net, f.to, f.packet.id))
  }

  /** No ACK was passed on; what was transmitted is held, and no transmission is repeated. */
  ghost predicate LogOk(net: Net) {
    && NoRepeat(net.log)
    && forall e <- net.log :: !e.PathLit? && (Transmission(e) ==> Holds(net, e.node, e.id))
  }

  ghost predicate Quiet(net: Net) {
    BuffersOk(net) && LogOk(net) && forall f <- net.air :: FlightHeld(net, f)
  }

  // ---------------------------------------------------------------- nothing is forgotten

  function Elements(s: seq<string>): set<string> {
    set x <- s
  }

  lemma {:induction false} DistinctCount(s: seq<string>)
    requires Distinct(s)
    ensures |Elements(s)| == |s|
  {
    if s != [] {
      var init, last := s[..|s| - 1], s[|s| - 1];
      DistinctCount(init);
      assert last !in init;
      assert Elements(s) == Elements(init) + {last};
    } else {
      assert Elements(s) == {};
    }
  }

  lemma SubsetCount(a: set<string>, b: set<string>)
    requires a <= b
    ensures |a| <= |b|
  {
    assert b == a + (b - a);
  }

  /** While at most 32 ids exist the window is the whole history, so a buffer suppresses an id exactly
      when it was ever inserted. */
  lemma NothingForgotten(net: Net, v: Mac, id: string)
    requires Quiet(net) && |LaunchIds(net.launches)| <= SLOTS && |id| == ID_LENGTH
    ensures Suppressed(NodeOf(net, v).inserted, id) <==> Holds(net, v, id)
  {
    var inserted := NodeOf(net, v).inserted;
    DistinctCount(inserted);
    forall x <- Elements(inserted)
      ensures x in LaunchIds(net.launches)
    {
      assert Holds(net, v, x);
    }
    SubsetCount(Elements(inserted), LaunchIds(net.launches));
  }

  // ---------------------------------------------------------------- steps

  lemma DistinctGrows(s: seq<string>, id: string)
    requires Distinct(s) && id !in s
    ensures Distinct(s + [id])
  {
    assert forall i :: 0 <= i < |s| ==> s[i] in s;
  }

  lemma InsertedAfter(net: Net, v: Mac, id: string)
    requires Quiet(net) && |LaunchIds(net.launches)| <= SLOTS && |id| == ID_LENGTH
    ensures var before := NodeOf(net, v).inserted;
            AfterSeen(before, id) == if id in before then before else before + [id]
    ensures Distinct(AfterSeen(NodeOf(net, v).inserted, id))
  {
    NothingForgotten(net, v, id);
    if id !in NodeOf(net, v).inserted {
      DistinctGrows(NodeOf(net, v).inserted, id);
    }
  }

  /** Delivering an ACK changes nothing: its receiver already holds the id. */
  lemma AckIsQuenched(g: Graph, net: Net, f: Flight)
    requires Quiet(net) && |LaunchIds(net.launches)| <= SLOTS && FlightHeld(net, f) && f.packet.Ack?
    ensures OnlyGone(net, Receive(g, net, f), net.air) && Receive(g, net, f).launches == net.launches
  {
    RepeatIsQuenched(g, net, f);
  }

  lemma LaunchedIdLength(net: Net, id: string)
    requires Quiet(net) && id in LaunchIds(net.launches)
    ensures |id| == ID_LENGTH
  {
  }

  lemma NoRepeatExtends(net: Net, more: seq<Event>)
    requires NoRepeat(net.log) && |more| <= 2
    requires forall e <- net.log :: Transmission(e) ==> Holds(net, e.node, e.id)
    requires forall e <- more :: Transmission(e) ==> !Holds(net, e.node, e.id)
    requires |more| == 2 ==> more[0].Accepted?
    ensures NoRepeat(net.log + more)
  {
    var log := net.log + more;
    forall i, j | 0 <= i < j < |log| && Transmission(log[i])
      ensures log[i] != log[j]
    {
      if i < |net.log| <= j {
        assert log[i] in net.log && log[j] in more;
      }
    }
  }

  /** `net'` differs from `net` in that `v` also holds `id`. */
  ghost predicate HoldsMore(net: Net, net': Net, v: Mac, id: string) {
    && net'.launches == net.launches
    && forall u: Mac, x: string :: Holds(net', u, x) <==> Holds(net, u, x) || (u == v && x == id)
  }

  lemma FlightsStayHeld(net: Net, net': Net, v: Mac, id: string, f: Flight)
    requires HoldsMore(net, net', v, id) && FlightHeld(net, f)
    ensures FlightHeld(net', f)
  {
  }

  /** One buffer takes in one launched id. */
  lemma BuffersGrow(net: Net, net': Net, v: Mac, id: string)
    requires BuffersOk(net) && |id| == ID_LENGTH
    requires LaunchIds(net'.launches) == LaunchIds(net.launches) + {id}
    requires forall u: Mac :: u != v ==> NodeOf(net', u) == NodeOf(net, u)
    requires NodeOf(net', v).inserted == (var old' := NodeOf(net, v).inserted; if id in old' then old' else old' + [id])
    requires NodeOf(net', v).pathLed == NodeOf(net, v).pathLed
    ensures BuffersOk(net')
    ensures forall u: Mac, x: string :: Holds(net', u, x) <==> Holds(net, u, x) || (u == v && x == id)
  {
    hide NodeOf, LaunchIds, Distinct;
    var inserted := NodeOf(net, v).inserted;
    if id !in inserted {
      DistinctGrows(inserted, id);
    }
    forall u: Mac, x: string
      ensures Holds(net', u, x) <==> Holds(net, u, x) || (u == v && x == id)
    {
      if u != v {
        assert NodeOf(net', u) == NodeOf(net, u);
      }
    }
    forall u: Mac
      ensures Distinct(NodeOf(net', u).inserted) && !NodeOf(net', u).pathLed
    {
      if u != v {
        assert NodeOf(net', u) == NodeOf(net, u);
      }
      assert Distinct(NodeOf(net, u).inserted);
    }
  }

  /** The state of the receiver after its first REQ with this id. */
  lemma ReqBuffers(g: Graph, net: Net, f: Flight)
    requires Quiet(net) && |LaunchIds(net.launches)| <= SLOTS
    requires f.packet.Req? && f.packet.id in LaunchIds(net.launches) && !Holds(net, f.to, f.packet.id)
    requires Arrives(f.packet)
    ensures var net' := Receive(g, net, f); BuffersOk(net') && HoldsMore(net, net', f.to, f.packet.id)
  {
    hide Arrives, Quiet, Emit, EventsOf, ReceiveSends, Suppressed, Distinct, Window;
    var p := f.packet;
    var s := NodeOf(net, f.to);
    var net' := Receive(g, net, f);
    LaunchedIdLength(net, p.id);
    InsertedAfter(net, f.to, p.id);
    NothingForgotten(net, f.to, p.id);
    QuietBuffers(net);
    ReceiveEffect(g, net, f);
    hide Arrives, Suppressed, Quiet, Emit, EventsOf, ReceiveSends, Distinct, AfterSeen, BuffersOk, Receive, NodeOf;
    assert LaunchIds(net.launches) == LaunchIds(net.launches) + {p.id};
    BuffersGrow(net, net', f.to, p.id);
  }

  lemma ReqLog(g: Graph, net: Net, f: Flight)
    requires LogOk(net) && !Holds(net, f.to, f.packet.id) && f.packet.Req? && Arrives(f.packet)
    requires HoldsMore(net, Receive(g, net, f), f.to, f.packet.id)
    ensures LogOk(Receive(g, net, f))
  {
    var events := EventsOf(f.to, NodeOf(net, f.to), f.packet);
    hide Arrives, Suppressed, NoRepeat, Emit, ReceiveSends, AfterReceive, Holds;
    NoRepeatExtends(net, events);
  }

  lemma ReqKeepsQuiet(g: Graph, net: Net, f: Flight)
    requires Quiet(net) && |LaunchIds(net.launches)| <= SLOTS
    requires FlightHeld(net, f) && f.packet.Req? && !Holds(net, f.to, f.packet.id) && Arrives(f.packet)
    ensures Quiet(Receive(g, net, f))
  {
    var net' := Receive(g, net, f);
    var s := NodeOf(net, f.to);
    ReqBuffers(g, net, f);
    ReqLog(g, net, f);
    EmittedIsHeld(g, net', f, s);
    var sent := Emit(g, f.to, ReceiveSends(f.to, s, f.packet));
    assert net'.air == net.air + sent;
    hide Arrives, BuffersOk, LogOk, Receive, FlightHeld, HoldsMore;
    AirStaysHeld(net, net', f.to, f.packet.id, sent);
  }

  lemma AirStaysHeld(net: Net, net': Net, v: Mac, id: string, sent: seq<Flight>)
    requires HoldsMore(net, net', v, id) && net'.air == net.air + sent
    requires (forall h <- net.air :: FlightHeld(net, h)) && (forall h <- sent :: FlightHeld(net', h))
    ensures forall h <- net'.air :: FlightHeld(net', h)
  {
    hide FlightHeld, HoldsMore;
    forall h <- net'.air
      ensures FlightHeld(net', h)
    {
      if h in net.air {
        FlightsStayHeld(net, net', v, id, h);
      }
    }
  }

  lemma EmittedIsHeld(g: Graph, net': Net, f: Flight, s: NodeState)
    requires f.packet.Req? && f.packet.path != [] && f.packet.src == f.packet.path[|f.packet.path| - 1]
    requires f.packet.id in LaunchIds(net'.launches)
    requires Holds(net', f.packet.src, f.packet.id) && Holds(net', f.to, f.packet.id)
    ensures forall h <- Emit(g, f.to, ReceiveSends(f.to, s, f.packet)) :: FlightHeld(net', h)
  {
    hide Suppressed, Holds, SendAck, LaunchIds;
    var p := f.packet;
    AckGoesToPreviousEntry(p.id, p.dst, p.path + [f.to]);
  }

  /** So does delivering a REQ to a node that holds its id. */
  lemma RepeatIsQuenched(g: Graph, net: Net, f: Flight)
    requires Quiet(net) && |LaunchIds(net.launches)| <= SLOTS
    requires f.packet.id in LaunchIds(net.launches) && Holds(net, f.to, f.packet.id)
    ensures OnlyGone(net, Receive(g, net, f), net.air) && Receive(g, net, f).launches == net.launches
  {
    LaunchedIdLength(net, f.packet.id);
    NothingForgotten(net, f.to, f.packet.id);
    hide Quiet, Arrives, LaunchIds, Suppressed, NodeOf, OnlyGone, AfterReceive, ReceiveSends, Emit, EventsOf;
    SuppressedIsIgnored(g, net, f);
  }

  lemma DeliverKeepsQuiet(g: Graph, net: Net, f: Flight)
    requires Quiet(net) && |LaunchIds(net.launches)| <= SLOTS && FlightHeld(net, f)
    ensures Quiet(Receive(g, net, f))
  {
    var net' := Receive(g, net, f);
    hide Quiet, Arrives, Holds, NodeOf;
    if !Arrives(f.packet) {
    } else if f.packet.Ack? {
      AckIsQuenched(g, net, f);
      hide Receive, LaunchIds;
      SameIsQuiet(net, net');
    } else if Holds(net, f.to, f.packet.id) {
      RepeatIsQuenched(g, net, f);
      hide Receive, LaunchIds;
      SameIsQuiet(net, net');
    } else {
      hide Receive, LaunchIds;
      ReqKeepsQuiet(g, net, f);
    }
  }

  lemma SameIsQuiet(net: Net, net': Net)
    requires Quiet(net)
    requires net'.air == net.air && net'.log == net.log && net'.launches == net.launches
    requires forall v: Mac :: NodeOf(net', v).inserted == NodeOf(net, v).inserted
                              && (NodeOf(net', v).pathLed ==> NodeOf(net, v).pathLed)
    ensures Quiet(net')
  {
    hide NoRepeat, Distinct;
    assert forall v: Mac, id: string :: Holds(net', v, id) <==> Holds(net, v, id);
  }

  lemma LaunchIdsGrow(launches: seq<Launch>, l: Launch)
    ensures LaunchIds(launches + [l]) == LaunchIds(launches) + {l.id}
  {
  }

  /** Starting a flood. */
  lemma StartBuffers(g: Graph, net: Net, v: Mac, target: string, tick: nat)
    requires Quiet(net) && target != "" && |LaunchIds(net.launches)| <= SLOTS
    ensures var id := MessageId(v, tick);
            var net' := Next(g, net, Start(v, target, tick));
            && BuffersOk(net')
            && (forall u: Mac, x: string :: Holds(net', u, x) <==> Holds(net, u, x) || (u == v && x == id))
  {
    var id := MessageId(v, tick);
    var net' := Next(g, net, Start(v, target, tick));
    InsertedAfter(net, v, id);
    LaunchIdsGrow(net.launches, Launch(v, target, id));
    QuietBuffers(net);
    StartEffect(g, net, v, target, tick);
    assert |id| == ID_LENGTH;
    hide Quiet, LaunchIds, Emit, Suppressed, Distinct, MessageId, AfterSeen, BuffersOk, Next, NodeOf;
    BuffersGrow(net, net', v, id);
  }

  lemma QuietBuffers(net: Net)
    requires Quiet(net)
    ensures BuffersOk(net)
  {
  }

  lemma StartKeepsQuiet(g: Graph, net: Net, v: Mac, target: string, tick: nat)
    requires Quiet(net) && target != "" && |LaunchIds(net.launches)| <= SLOTS
    ensures Quiet(Next(g, net, Start(v, target, tick)))
  {
    var id := MessageId(v, tick);
    var net' := Next(g, net, Start(v, target, tick));
    StartBuffers(g, net, v, target, tick);
    LaunchIdsGrow(net.launches, Launch(v, target, id));
    StartEffect(g, net, v, target, tick);
    LaunchedReqs(g, v, target, tick);
    hide BuffersOk, Next;
    LaunchKeepsHeld(net, net', v, id, Emit(g, v, StartSends(v, target, tick)));
  }

  lemma LaunchKeepsHeld(net: Net, net': Net, v: Mac, id: string, sent: seq<Flight>)
    requires Quiet(net) && net'.log == net.log && net'.air == net.air + sent
    requires LaunchIds(net'.launches) == LaunchIds(net.launches) + {id}
    requires forall u: Mac, x: string :: Holds(net', u, x) <==> Holds(net, u, x) || (u == v && x == id)
    requires forall h <- sent :: h.packet.Req? && h.packet.id == id && h.packet.src == v && h.packet.path == [v]
    ensures LogOk(net') && forall h <- net'.air :: FlightHeld(net', h)
  {
    hide BuffersOk, NoRepeat, Holds, LaunchIds;
    assert forall f <- net.air :: FlightHeld(net', f);
  }

  lemma LaunchedReqs(g: Graph, v: Mac, target: string, tick: nat)
    requires target != ""
    ensures forall h <- Emit(g, v, StartSends(v, target, tick)) ::
              h.packet.Req? && h.packet.id == MessageId(v, tick) && h.packet.src == v && h.packet.path == [v]
  {
    hide MessageId;
    assert [] + [v] == [v];
  }

  lemma StepKeepsQuiet(g: Graph, net: Net, step: Step)
    requires Quiet(net) && |LaunchIds(net.launches)| <= SLOTS
    ensures Quiet(Next(g, net, step))
  {
    match step
    case Start(v, target, tick) =>
      if target != "" {
        StartKeepsQuiet(g, net, v, target, tick);
      }
    case Deliver(i) =>
      if i < |net.air| {
        WithoutIsQuiet(net, i);
        DeliverKeepsQuiet(g, net.(air := Without(net.air, i)), net.air[i]);
      }
    case Lose(i) =>
      if i < |net.air| {
        WithoutIsQuiet(net, i);
      }
    case SetContainer(v, containerId) =>
      SameIsQuiet(net, Next(g, net, step));
    case LedTimer(v, destOff, pathOff) =>
      SameIsQuiet(net, Next(g, net, step));
  }

  lemma WithoutIsQuiet(net: Net, i: nat)
    requires Quiet(net) && i < |net.air|
    ensures Quiet(net.(air := Without(net.air, i))) && FlightHeld(net.(air := Without(net.air, i)), net.air[i])
  {
    var net' := net.(air := Without(net.air, i));
    SameNodes(net, net');
    hide BuffersOk, LogOk, FlightHeld;
    assert forall f <- net'.air :: f in net.air;
  }

  lemma SameNodes(net: Net, net': Net)
    requires net' == net.(air := net'.air)
    ensures BuffersOk(net') == BuffersOk(net) && LogOk(net') == LogOk(net)
    ensures forall f: Flight :: FlightHeld(net', f) == FlightHeld(net, f)
  {
    hide NoRepeat, Distinct;
    assert forall v: Mac :: NodeOf(net', v) == NodeOf(net, v);
    assert forall v: Mac, id: string :: Holds(net', v, id) == Holds(net, v, id);
  }

  lemma LaunchesOnlyGrow(g: Graph, net: Net, step: Step)
    ensures LaunchIds(net.launches) <= LaunchIds(Next(g, net, step).launches)
  {
    if step.Start? {
      LaunchIdsGrow(net.launches, Launch(step.node, step.target, MessageId(step.node, step.tick)));
    }
  }

  /** Any run that launches at most 32 different ids is quiet throughout. */
  lemma {:induction false} RunIsQuiet(g: Graph, steps: seq<Step>)
    requires |LaunchIds(Run(g, SILENT, steps).launches)| <= SLOTS
    ensures Quiet(Run(g, SILENT, steps))
  {
    hide Next, Quiet, LaunchIds;
    if steps == [] {
      assert Quiet(SILENT) by { SilentIsQuiet(); }
    } else {
      var before := Run(g, SILENT, steps[..|steps| - 1]);
      LaunchesOnlyGrow(g, before, steps[|steps| - 1]);
      SubsetCount(LaunchIds(before.launches), LaunchIds(Run(g, SILENT, steps).launches));
      RunIsQuiet(g, steps[..|steps| - 1]);
      StepKeepsQuiet(g, before, steps[|steps| - 1]);
    }
  }

  lemma SilentIsQuiet()
    ensures Quiet(SILENT)
  {
    assert LaunchIds([]) == {};
  }

  // ---------------------------------------------------------------- consequences

  /** No node forwards, and no target answers, the same id twice. */
  lemma TransmitsAtMostOnce(g: Graph, steps: seq<Step>, i: nat, j: nat)
    requires |LaunchIds(Run(g, SILENT, steps).launches)| <= SLOTS
    requires i < j < |Run(g, SILENT, steps).log|
    ensures var log := Run(g, SILENT, steps).log;
            Transmission(log[i]) ==> log[i] != log[j]
  {
    RunIsQuiet(g, steps);
  }

  /** Every ACK finds its id already in the buffer of the node it reaches, so it is never passed on and no
      PATH LED is ever switched on. */
  lemma AcksAreQuenched(g: Graph, steps: seq<Step>)
    requires |LaunchIds(Run(g, SILENT, steps).launches)| <= SLOTS
    ensures var net := Run(g, SILENT, steps);
            && (forall f <- net.air :: f.packet.Ack? ==> Suppressed(NodeOf(net, f.to).inserted, f.packet.id))
            && (forall v: Mac :: !NodeOf(net, v).pathLed)
            && (forall e <- net.log :: !e.PathLit?)
  {
    RunIsQuiet(g, steps);
    var net := Run(g, SILENT, steps);
    hide Run;
    forall f <- net.air | f.packet.Ack?
      ensures Suppressed(NodeOf(net, f.to).inserted, f.packet.id)
    {
      assert FlightHeld(net, f);
      LaunchedIdLength(net, f.packet.id);
      NothingForgotten(net, f.to, f.packet.id);
    }
  }
}
