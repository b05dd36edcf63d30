/**
 Every flood dies out, whatever the duplicate buffers forget: a weight over the REQ copies in flight
 goes down with every copy that is delivered or lost.
 */
module FloodTermination {
  import opened DedupRing
  import opened MacText
  import opened Packets
  import opened FloodNode
  import opened FloodNet

  ghost predicate DegreeAtMost(g: Graph, d: nat) {
    forall v: Mac :: |Neighbours(g, v)| <= d
  }

  /** The number of copies one REQ copy with this TTL can still cause, itself included. */
  function Weight(d: nat, ttl: nat): (w: nat)
    ensures w > 0
  {
    if ttl == 0 then 1 else 1 + d * Weight(d, ttl - 1)
  }

  function FlightWeight(d: nat, f: Flight): nat {
    if f.packet.Req? then Weight(d, f.packet.ttl) else 0
  }

  function Potential(d: nat, air: seq<Flight>): nat {
    if air == [] then 0 else Potential(d, air[..|air| - 1]) + FlightWeight(d, air[|air| - 1])
  }

  lemma {:induction false} PotentialAppend(d: nat, a: seq<Flight>, b: seq<Flight>)
    ensures Potential(d, a + b) == Potential(d, a) + Potential(d, b)
  {
    hide FlightWeight;
    if b == [] {
      assert a + b == a;
    } else {
      assert (a + b)[..|a + b| - 1] == a + b[..|b| - 1];
      PotentialAppend(d, a, b[..|b| - 1]);
    }
  }

  lemma PotentialWithout(d: nat, air: seq<Flight>, i: nat)
    requires i < |air|
    ensures Potential(d, air) == Potential(d, Without(air, i)) + FlightWeight(d, air[i])
  {
    hide FlightWeight;
    assert air == air[..i] + [air[i]] + air[i + 1..];
    PotentialAppend(d, air[..i] + [air[i]], air[i + 1..]);
    PotentialAppend(d, air[..i], [air[i]]);
    PotentialAppend(d, air[..i], air[i + 1..]);
    assert [air[i]][..0] == [];
  }

  lemma {:induction false} PotentialOfCopies(d: nat, to: seq<Mac>, p: Packet)
    requires p.Req?
    ensures Potential(d, Copies(to, p)) == |to| * Weight(d, p.ttl)
  {
    if to != [] {
      var n := |to| - 1;
      assert Copies(to, p)[..n] == Copies(to[..n], p);
      PotentialOfCopies(d, to[..n], p);
    }
  }

  lemma MulMonotone(a: nat, b: nat, c: nat)
    requires a <= b
    ensures a * c <= b * c
  {
  }

  /** A forwarded REQ weighs less than the one it answers. */
  lemma ReplyWeighsLess(g: Graph, d: nat, v: Mac, s: NodeState, p: Packet)
    requires DegreeAtMost(g, d)
    ensures Potential(d, Emit(g, v, ReceiveSends(v, s, p))) < if p.Req? then Weight(d, p.ttl) else 1
  {
    hide Suppressed, MacString, ParseMac;
    match ReceiveSends(v, s, p)
    case Nothing =>
    case Broadcast(q) =>
      PotentialOfCopies(d, Neighbours(g, v), q);
      MulMonotone(|Neighbours(g, v)|, d, Weight(d, q.ttl));
    case Unicast(to, q) =>
      assert [Flight(to, q)][..0] == [];
  }

  /** The step takes a REQ copy out of the air, by delivery or by loss. */
  predicate ConsumesReq(net: Net, step: Step) {
    match step
    case Deliver(i) => i < |net.air| && net.air[i].packet.Req?
    case Lose(i) => i < |net.air| && net.air[i].packet.Req?
    case _ => false
  }

  /** Apart from new floods no step adds weight, and every REQ copy delivered or lost takes some away. */
  lemma StepLosesWeight(g: Graph, d: nat, net: Net, step: Step)
    requires DegreeAtMost(g, d) && !step.Start?
    ensures Potential(d, Next(g, net, step).air) + (if ConsumesReq(net, step) then 1 else 0) <= Potential(d, net.air)
  {
    hide Potential, Emit, ReceiveSends, AfterReceive, EventsOf, Arrives, DegreeAtMost;
    match step
    case Start(_, _, _) =>
    case Deliver(i) =>
      if i < |net.air| {
        var f := net.air[i];
        PotentialWithout(d, net.air, i);
        if Arrives(f.packet) {
          var s := NodeOf(net, f.to);
          PotentialAppend(d, Without(net.air, i), Emit(g, f.to, ReceiveSends(f.to, s, f.packet)));
          ReplyWeighsLess(g, d, f.to, s, f.packet);
        }
      }
    case Lose(i) =>
      if i < |net.air| {
        PotentialWithout(d, net.air, i);
      }
    case SetContainer(_, _) =>
    case LedTimer(_, _, _) =>
  }

  /** How many REQ copies a run takes out of the air. */
  function Consumed(g: Graph, net: Net, steps: seq<Step>): nat {
    if steps == [] then 0
    else
      var n := |steps| - 1;
      Consumed(g, net, steps[..n]) + if ConsumesReq(Run(g, net, steps[..n]), steps[n]) then 1 else 0
  }

  /** From any state whatever - any duplicate buffers, any packets in flight, any delivery order - only so
      many REQ copies can be delivered or lost before no flood is left, unless a new one is started. */
  lemma {:induction false} FloodsDieOut(g: Graph, d: nat, net: Net, steps: seq<Step>)
    requires DegreeAtMost(g, d)
    requires forall i :: 0 <= i < |steps| ==> !steps[i].Start?
    ensures Consumed(g, net, steps) + Potential(d, Run(g, net, steps).air) <= Potential(d, net.air)
  {
    hide Next, Potential, DegreeAtMost, ConsumesReq;
    if steps != [] {
      var n := |steps| - 1;
      FloodsDieOut(g, d, net, steps[..n]);
      StepLosesWeight(g, d, Run(g, net, steps[..n]), steps[n]);
    }
  }

  /** A single flood causes at most d * Weight(d, 7) deliveries and losses of its REQ. */
  lemma OneFloodIsBounded(g: Graph, d: nat, v: Mac, target: string, tick: nat, steps: seq<Step>)
    requires DegreeAtMost(g, d) && target != ""
    requires forall i :: 0 <= i < |steps| ==> !steps[i].Start?
    ensures Consumed(g, Next(g, SILENT, Start(v, target, tick)), steps) <= d * Weight(d, TTL_DEFAULT - 1)
  {
    var net := Next(g, SILENT, Start(v, target, tick));
    var p := Req(MessageId(v, tick), target, v, TTL_DEFAULT - 1, 1, [] + [v]);
    assert net.air == [] + Copies(Neighbours(g, v), p) == Copies(Neighbours(g, v), p);
    hide Next, Weight, Potential, MessageId;
    FloodsDieOut(g, d, net, steps);
    PotentialOfCopies(d, Neighbours(g, v), p);
    MulMonotone(|Neighbours(g, v)|, d, Weight(d, TTL_DEFAULT - 1));
  }
}
