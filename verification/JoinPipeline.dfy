/**
  Edges feeding a sync join. Each input port of the node has its own edge; emitters, drains
  and shutdown act on the edges in any order, and a drain hands the packets of its edge to
  the node in the order they were popped (`DrainProtocol` shows why it can be relied on).
  */
module JoinPipeline {
  import opened Packets
  import opened Sequences
  import opened BoundedQueues
  import Edges = EdgeStreams
  import opened SyncJoin
  import opened SyncJoinRuns

  datatype QueueConfig = QueueConfig(capacity: nat, policy: QueuePolicy)
  type Config = map<Port, QueueConfig>

  datatype Step =
    | OnEdge(port: Port, step: Edges.Step)
    | HandOver(port: Port)

  datatype Pipeline = Pipeline(edges: map<Port, Edges.Edge>, delivered: History)

  function Start(cfg: Config): Pipeline {
    Pipeline(map p | p in cfg :: Edges.NEW_EDGE, [])
  }

  /** How many packets of a port the node has been given. */
  function Given(pl: Pipeline, p: Port): nat {
    |OnPort(pl.delivered, p)|
  }

  function Apply(cfg: Config, pl: Pipeline, s: Step): Pipeline {
    match s
    case OnEdge(p, step) =>
      if p !in cfg || p !in pl.edges then pl
      else pl.(edges := pl.edges[p := Edges.Apply(cfg[p].capacity, cfg[p].policy, pl.edges[p], step)])
    case HandOver(p) =>
      if p !in pl.edges || Given(pl, p) >= |pl.edges[p].popped| then pl
      else pl.(delivered := pl.delivered + [Delivery(p, pl.edges[p].popped[Given(pl, p)])])
  }

  function Run(cfg: Config, steps: seq<Step>): Pipeline {
    if steps == [] then Start(cfg) else Apply(cfg, Run(cfg, Front(steps)), Final(steps))
  }

  /** The only thing asked of emitters beyond what the edge checks: a required port sees no data timestamp twice. */
  predicate Allowed(c: Contract, pl: Pipeline, s: Step) {
    match s
    case OnEdge(p, Validate(packet)) =>
      p in Required(c) && p in pl.edges && !packet.IsControl() ==> packet.ts != pl.edges[p].st.last
    case _ => true
  }

  predicate AllowedRun(c: Contract, cfg: Config, steps: seq<Step>) {
    steps == [] || (AllowedRun(c, cfg, Front(steps)) && Allowed(c, Run(cfg, Front(steps)), Final(steps)))
  }

  predicate Ascends(a: Packet, b: Packet) {
    !a.IsControl() && !b.IsControl() ==> a.ts < b.ts
  }

  ghost predicate EdgeInv(strict: bool, capacity: nat, e: Edges.Edge) {
    Edges.Inv(capacity, e) && (strict ==> Pairwise(Ascends, e.accepted + Edges.InHand(e.st)))
  }

  /** The node has been given a prefix of what the port's edge popped. */
  ghost predicate GivenInOrder(h: History, p: Port, popped: seq<Packet>) {
    && |OnPort(h, p)| <= |popped|
    && forall i :: 0 <= i < |OnPort(h, p)| ==> OnPort(h, p)[i] == Delivery(p, popped[i])
  }

  ghost predicate PortInv(strict: bool, capacity: nat, e: Edges.Edge, h: History, p: Port) {
    EdgeInv(strict, capacity, e) && GivenInOrder(h, p, e.popped)
  }

  ghost predicate Inv(c: Contract, cfg: Config, pl: Pipeline) {
    && pl.edges.Keys == cfg.Keys
    && Disciplined(c, pl.delivered)
    && (forall p :: p in cfg ==> PortInv(p in Required(c), cfg[p].capacity, pl.edges[p], pl.delivered, p))
  }

  // ---------------------------------------------------------------------------

  lemma EdgeStepKeeps(strict: bool, capacity: nat, policy: QueuePolicy, e: Edges.Edge, step: Edges.Step)
    requires EdgeInv(strict, capacity, e)
    requires strict && step.Validate? && !step.packet.IsControl() ==> step.packet.ts != e.st.last
    ensures EdgeInv(strict, capacity, Edges.Apply(capacity, policy, e, step))
    ensures e.popped <= Edges.Apply(capacity, policy, e, step).popped
  {
    var e' := Edges.Apply(capacity, policy, e, step);
    Edges.StepKeeps(capacity, policy, e, step);
    var before := e.accepted + Edges.InHand(e.st);
    var after := e'.accepted + Edges.InHand(e'.st);
    match step {
      case Validate(p) => if strict { ValidateAscends(e, p); }
      case Push => if strict { PushAscends(capacity, policy, e); }
      case Pop => assert after == before;
      case CloseQueue => assert after == before;
    }
  }

  lemma ValidateAscends(e: Edges.Edge, p: Packet)
    requires Pairwise(Ascends, e.accepted + Edges.InHand(e.st))
    requires Edges.Dominates(e.st, e.accepted + Edges.InHand(e.st))
    requires !p.IsControl() ==> p.ts != e.st.last
    ensures Pairwise(Ascends, e.accepted + Edges.InHand(Edges.ValidateStep(e.st, p)))
  {
    var st' := Edges.ValidateStep(e.st, p);
    if st' != e.st {
      assert e.accepted + Edges.InHand(e.st) == e.accepted;
      var passed := e.accepted + Edges.InHand(st');
      assert passed == e.accepted + [p];
      forall i, j | 0 <= i < j < |passed|
        ensures Ascends(passed[i], passed[j])
      {
        if j == |e.accepted| {
          assert passed[i] in e.accepted;
        } else {
          assert Ascends(e.accepted[i], e.accepted[j]);
        }
      }
    }
  }

  lemma PushAscends(capacity: nat, policy: QueuePolicy, e: Edges.Edge)
    requires Pairwise(Ascends, e.accepted + Edges.InHand(e.st))
    ensures
      var e' := Edges.Apply(capacity, policy, e, Edges.Push);
      Pairwise(Ascends, e'.accepted + Edges.InHand(e'.st))
  {
    var e' := Edges.Apply(capacity, policy, e, Edges.Push);
    var before := e.accepted + Edges.InHand(e.st);
    var after := e'.accepted + Edges.InHand(e'.st);
    assert |after| <= |before| && after == before[..|after|];
    forall i, j | 0 <= i < j < |after|
      ensures Ascends(after[i], after[j])
    {
      assert Ascends(before[i], before[j]);
    }
  }

  /** What a port has delivered decides whether the next packet is in discipline. */
  lemma {:induction false} PortDecides(h: History, p: Port, x: Packet)
    requires !x.IsControl()
    requires forall i :: 0 <= i < |OnPort(h, p)| ==>
      Edges.Follows(OnPort(h, p)[i].packet, x) && Ascends(OnPort(h, p)[i].packet, x)
    ensures p !in ClosedBy(h)
    ensures forall b: int :: b in BoundsOf(h, p) ==> b <= x.ts
    ensures forall t: int :: t in Stamps(h, p) ==> t < x.ts
  {
    if h != [] {
      var prior := OnPort(Front(h), p);
      assert prior <= OnPort(h, p);
      forall i | 0 <= i < |prior|
        ensures Edges.Follows(prior[i].packet, x) && Ascends(prior[i].packet, x)
      {
        assert prior[i] == OnPort(h, p)[i];
      }
      PortDecides(Front(h), p, x);
      if Final(h).port == p {
        assert OnPort(h, p)[|prior|] == Final(h);
      }
    }
  }

  lemma PoppedIsDisciplined(capacity: nat, e: Edges.Edge)
    requires EdgeInv(true, capacity, e)
    ensures Edges.StreamDiscipline(e.popped) && Pairwise(Ascends, e.popped)
  {
    var passed := e.accepted + Edges.InHand(e.st);
    Edges.PrefixKeepsDiscipline(e.accepted, Edges.InHand(e.st));
    Edges.SubsequencePrefix(e.popped, e.st.queue.items, e.accepted);
    Edges.SubsequenceKeepsDiscipline(e.popped, e.accepted);
    forall i, j | 0 <= i < j < |e.accepted|
      ensures Ascends(e.accepted[i], e.accepted[j])
    {
      assert Ascends(passed[i], passed[j]);
    }
    SubsequencePairwise(Ascends, e.popped, e.accepted);
  }

  /** The next packet a drain hands over is always in discipline. */
  lemma NextIsInDiscipline(c: Contract, h: History, p: Port, capacity: nat, e: Edges.Edge)
    requires EdgeInv(p in Required(c), capacity, e) && GivenInOrder(h, p, e.popped) && |OnPort(h, p)| < |e.popped|
    ensures InDiscipline(c, h, Delivery(p, e.popped[|OnPort(h, p)|]))
  {
    var k := |OnPort(h, p)|;
    var x := e.popped[k];
    if p in Required(c) && !x.IsControl() {
      PoppedIsDisciplined(capacity, e);
      forall i | 0 <= i < k
        ensures Edges.Follows(OnPort(h, p)[i].packet, x) && Ascends(OnPort(h, p)[i].packet, x)
      {
        assert Edges.Follows(e.popped[i], e.popped[k]) && Ascends(e.popped[i], e.popped[k]);
      }
      PortDecides(h, p, x);
    }
  }

  lemma OnPortStep(h: History, d: Delivery, p: Port)
    ensures OnPort(h + [d], p) == OnPort(h, p) + (if d.port == p then [d] else [])
  {
    Unfold(h, d);
  }

  lemma PortStepKeeps(strict: bool, q: QueueConfig, e: Edges.Edge, h: History, p: Port, step: Edges.Step)
    requires PortInv(strict, q.capacity, e, h, p)
    requires strict && step.Validate? && !step.packet.IsControl() ==> step.packet.ts != e.st.last
    ensures PortInv(strict, q.capacity, Edges.Apply(q.capacity, q.policy, e, step), h, p)
  {
    EdgeStepKeeps(strict, q.capacity, q.policy, e, step);
  }

  lemma OnEdgeKeepsInv(c: Contract, cfg: Config, pl: Pipeline, p: Port, step: Edges.Step)
    requires Inv(c, cfg, pl) && Allowed(c, pl, OnEdge(p, step))
    ensures Inv(c, cfg, Apply(cfg, pl, OnEdge(p, step)))
  {
    if p in cfg {
      PortStepKeeps(p in Required(c), cfg[p], pl.edges[p], pl.delivered, p, step);
    }
  }

  /** A hand-over gives one port its next packet and leaves what the others were given alone. */
  lemma GivenStep(h: History, d: Delivery, q: Port, popped: seq<Packet>)
    requires GivenInOrder(h, q, popped)
    requires d.port == q ==> |OnPort(h, q)| < |popped| && d == Delivery(q, popped[|OnPort(h, q)|])
    ensures GivenInOrder(h + [d], q, popped)
  {
    OnPortStep(h, d, q);
  }

  lemma HandOverIsDisciplined(c: Contract, cfg: Config, pl: Pipeline, p: Port)
    requires Inv(c, cfg, pl) && p in cfg && Given(pl, p) < |pl.edges[p].popped|
    ensures Disciplined(c, pl.delivered + [Delivery(p, pl.edges[p].popped[Given(pl, p)])])
  {
    var d := Delivery(p, pl.edges[p].popped[Given(pl, p)]);
    NextIsInDiscipline(c, pl.delivered, p, cfg[p].capacity, pl.edges[p]);
    Unfold(pl.delivered, d);
  }

  lemma HandOverKeepsPort(c: Contract, cfg: Config, pl: Pipeline, p: Port, q: Port)
    requires pl.edges.Keys == cfg.Keys && p in cfg && q in cfg && Given(pl, p) < |pl.edges[p].popped|
    requires PortInv(q in Required(c), cfg[q].capacity, pl.edges[q], pl.delivered, q)
    ensures
      var d := Delivery(p, pl.edges[p].popped[Given(pl, p)]);
      PortInv(q in Required(c), cfg[q].capacity, pl.edges[q], pl.delivered + [d], q)
  {
    GivenStep(pl.delivered, Delivery(p, pl.edges[p].popped[Given(pl, p)]), q, pl.edges[q].popped);
  }

  lemma HandOverKeepsInv(c: Contract, cfg: Config, pl: Pipeline, p: Port)
    requires Inv(c, cfg, pl)
    ensures Inv(c, cfg, Apply(cfg, pl, HandOver(p)))
  {
    if p in cfg && Given(pl, p) < |pl.edges[p].popped| {
      HandOverIsDisciplined(c, cfg, pl, p);
      forall q | q in cfg
        ensures PortInv(q in Required(c), cfg[q].capacity, pl.edges[q], Apply(cfg, pl, HandOver(p)).delivered, q)
      {
        HandOverKeepsPort(c, cfg, pl, p, q);
      }
    }
  }

  lemma {:induction false} RunKeepsInv(c: Contract, cfg: Config, steps: seq<Step>)
    requires AllowedRun(c, cfg, steps)
    ensures Inv(c, cfg, Run(cfg, steps))
  {
    if steps == [] {
      StartInv(c, cfg);
    } else {
      var before := Run(cfg, Front(steps));
      RunKeepsInv(c, cfg, Front(steps));
      match Final(steps) {
        case OnEdge(p, step) => OnEdgeKeepsInv(c, cfg, before, p, step);
        case HandOver(p) => HandOverKeepsInv(c, cfg, before, p);
      }
    }
  }

  lemma StartInv(c: Contract, cfg: Config)
    ensures Inv(c, cfg, Start(cfg))
  {
  }

  /**
    Edges of any capacity and drop policy, feeding a sync node in any interleaving: the node
    is handed exactly the sorted intersection of what its required ports were given, each
    port was given an in-order prefix of what its edge let through, and end-of-stream is
    handed out once every required port's has arrived, and never twice.
    */
  lemma PipelineJoins(c: Contract, cfg: Config, steps: seq<Step>, pl: Pipeline)
    requires Required(c) != {} && AllowedRun(c, cfg, steps) && pl == Run(cfg, steps)
    ensures HandedOut(c, pl.delivered) == SortedIntersection(c, pl.delivered)
    ensures EosCount(c, pl.delivered) == if Required(c) <= ClosedBy(pl.delivered) then 1 else 0
    ensures pl.edges.Keys == cfg.Keys
    ensures forall p :: p in cfg ==>
      && GivenInOrder(pl.delivered, p, pl.edges[p].popped)
      && Subsequence(pl.edges[p].popped, pl.edges[p].accepted)
      && |pl.edges[p].st.queue.items| <= cfg[p].capacity
  {
    RunKeepsInv(c, cfg, steps);
    JoinRefinesSortedIntersection(c, pl.delivered);
    EosExactlyOnce(c, pl.delivered);
    forall p | p in cfg
      ensures Subsequence(pl.edges[p].popped, pl.edges[p].accepted)
    {
      assert PortInv(p in Required(c), cfg[p].capacity, pl.edges[p], pl.delivered, p);
      Edges.SubsequencePrefix(pl.edges[p].popped, pl.edges[p].st.queue.items, pl.edges[p].accepted);
    }
  }
}
