/**
  The runtime record of a node with input policy `sync`, updated in place under its input
  mutex. The per-port buffers are one dictionary keyed by port and timestamp, so a port
  without a buffer and a port with an empty one are the same.
  */
module SyncNodeRuntime {
  import opened Basics
  import opened Packets
  import opened Sequences
  import opened SyncJoin

  class SyncNode {
    const inputs: Contract
    var pending: map<Key, Packet>
    var closedPorts: set<Port>
    var bounds: map<Port, Timestamp>
    var eosDispatched: bool

    constructor (inputs: Contract)
      ensures this.inputs == inputs && View() == INITIAL
    {
      this.inputs := inputs;
      pending, closedPorts, bounds, eosDispatched := map[], {}, map[], false;
    }

    ghost function View(): JoinState
      reads this
    {
      JoinState(pending, closedPorts, bounds, eosDispatched)
    }

    /** One candidate of the pruning loop: is some required port without it for good? */
    method CheckImpossible(ts: Timestamp) returns (impossible: bool)
      ensures impossible <==> Impossible(inputs, View(), ts)
    {
      impossible := false;
      for i := 0 to |inputs|
        invariant forall j :: 0 <= j < i && inputs[j].required && (inputs[j].name, ts) !in pending ==>
          !Exhausted(View(), inputs[j].name, ts)
      {
        var name := inputs[i].name;
        if inputs[i].required && (name, ts) !in pending {
          if name in closedPorts ||
            (name in bounds && (bounds[name] == DONE || (IsRange(bounds[name]) && bounds[name] > ts))) {
            assert name in Required(inputs) && Exhausted(View(), name, ts);
            return true;
          }
        }
      }
    }

    method PruneImpossible()
      modifies this`pending
      ensures View() == Prune(inputs, old(View()))
    {
      ghost var before := View();
      var candidates := set k | k in pending :: k.1;
      assert pending == PrunedSoFar(inputs, before, candidates);
      while candidates != {}
        invariant pending == PrunedSoFar(inputs, before, candidates)
        decreases candidates
      {
        var ts: Timestamp :| ts in candidates;
        var impossible := CheckImpossible(ts);
        SameVerdict(inputs, before, candidates, ts, View());
        PruneStep(inputs, before, candidates, ts);
        if impossible {
          pending := map k | k in pending && k.1 != ts :: pending[k];
        }
        candidates := candidates - {ts};
      }
    }

    method CheckReady(ts: Timestamp) returns (ready: bool)
      ensures ready <==> Ready(inputs, View(), ts)
    {
      ready := true;
      for i := 0 to |inputs|
        invariant forall j :: 0 <= j < i && inputs[j].required ==> (inputs[j].name, ts) in pending
      {
        if inputs[i].required && (inputs[i].name, ts) !in pending {
          assert inputs[i].name in Required(inputs);
          return false;
        }
      }
    }

    /** Move every declared port's packet with this timestamp into the invocation's inputs. */
    method TakeAt(ts: Timestamp) returns (taken: PacketSet)
      modifies this`pending
      ensures View() == Remove(inputs, old(View()), ts)
      ensures taken == Gather(inputs, old(View()), ts)
    {
      ghost var before := View();
      taken := map[];
      for i := 0 to |inputs|
        invariant pending == Remove(inputs[..i], before, ts).pending
        invariant taken == Gather(inputs[..i], before, ts)
      {
        var name := inputs[i].name;
        TakeStep(inputs, before, ts, i);
        if (name, ts) in pending {
          taken := taken[name := pending[(name, ts)]];
          pending := pending - {(name, ts)};
        }
      }
      assert inputs[..|inputs|] == inputs;
    }

    /** Walk the port's buffer in ascending order, stopping at the first complete timestamp. */
    method FirstReady(port: Port) returns (found: Option<Timestamp>)
      ensures
        var ready := ReadyOn(inputs, View(), port);
        if ready == {} then found == None else found == Some(Least(ready))
    {
      var rest := set k | k in pending && k.0 == port :: k.1 as int;
      ghost var ready := ReadyOn(inputs, View(), port);
      assert ready <= rest;
      while rest != {}
        invariant ready <= rest <= set k | k in pending && k.0 == port :: k.1 as int
        decreases rest
      {
        var ts: Timestamp := TakeLeast(rest);
        var complete := CheckReady(ts);
        if complete {
          assert (port, ts) in pending;
          assert ts as int in ready;
          return Some(ts);
        }
        rest := rest - {ts as int};
      }
      return None;
    }

    method CheckAllClosed() returns (allClosed: bool)
      ensures allClosed <==> Required(inputs) <= closedPorts
    {
      allClosed := true;
      for i := 0 to |inputs|
        invariant allClosed <==> forall j :: 0 <= j < i && inputs[j].required ==> inputs[j].name in closedPorts
      {
        if inputs[i].required && inputs[i].name !in closedPorts {
          allClosed := false;
        }
      }
    }

    method HandOut(port: Port) returns (out: Outcome)
      modifies this
      ensures (View(), out) == Dispatch(inputs, old(View()), port)
    {
      var ts := FirstReady(port);
      if ts.Some? {
        var taken := TakeAt(ts.value);
        return InvokeData(ts.value, taken);
      }
      var allClosed := CheckAllClosed();
      if allClosed && !eosDispatched {
        eosDispatched := true;
        return InvokeEos(EosInputs(inputs));
      }
      return Waiting;
    }

    /** Record the packet, prune, then hand out the first complete timestamp of its port, or end-of-stream. */
    method PrepareInvocation(port: Port, packet: Packet) returns (out: Outcome)
      requires packet.event != TimestampBound
      modifies this
      ensures (View(), out) == Deliver(inputs, old(View()), Delivery(port, packet))
    {
      if packet.event == EndOfStream {
        closedPorts := closedPorts + {port};
      } else if !IsRange(packet.ts) {
        return Rejected;
      } else {
        pending := pending[(port, packet.ts) := packet];
      }
      PruneImpossible();
      out := HandOut(port);
    }

    method DeliverPacket(port: Port, packet: Packet) returns (out: Outcome)
      modifies this
      ensures (View(), out) == Deliver(inputs, old(View()), Delivery(port, packet))
    {
      if packet.event == TimestampBound {
        if port in bounds && packet.ts < bounds[port] {
          return Rejected;
        }
        bounds := bounds[port := packet.ts];
        PruneImpossible();
        return Waiting;
      }
      out := PrepareInvocation(port, packet);
    }
  }

  /** What is left of `st` when the candidates outside `todo` have been pruned. */
  ghost function PrunedSoFar(c: Contract, st: JoinState, todo: set<Timestamp>): map<Key, Packet> {
    map k | k in st.pending && (k.1 in todo || !Impossible(c, st, k.1)) :: st.pending[k]
  }

  lemma PruneStep(c: Contract, st: JoinState, todo: set<Timestamp>, ts: Timestamp)
    requires ts in todo
    ensures
      var left := PrunedSoFar(c, st, todo);
      PrunedSoFar(c, st, todo - {ts}) ==
        if Impossible(c, st, ts) then map k | k in left && k.1 != ts :: left[k] else left
  {
  }

  /** Pruning one timestamp does not change the verdict on another. */
  lemma SameVerdict(c: Contract, st: JoinState, todo: set<Timestamp>, ts: Timestamp, now: JoinState)
    requires ts in todo && now == st.(pending := PrunedSoFar(c, st, todo))
    ensures Impossible(c, st, ts) <==> Impossible(c, now, ts)
  {
    forall p
      ensures (p, ts) in st.pending <==> (p, ts) in now.pending
      ensures Exhausted(st, p, ts) <==> Exhausted(now, p, ts)
    {
    }
  }

  lemma DeclaredStep(c: Contract, i: nat)
    requires i < |c|
    ensures Declared(c[..i + 1]) == Declared(c[..i]) + {c[i].name}
  {
    assert forall j :: 0 <= j < i ==> c[..i + 1][j] == c[..i][j];
  }

  /** Taking one more declared port's packet. */
  lemma TakeStep(c: Contract, st: JoinState, ts: Timestamp, i: nat)
    requires i < |c|
    ensures
      var name := c[i].name;
      var left := Remove(c[..i], st, ts).pending;
      && Remove(c[..i + 1], st, ts).pending == left - {(name, ts)}
      && ((name, ts) in left ==>
          Gather(c[..i + 1], st, ts) == Gather(c[..i], st, ts)[name := left[(name, ts)]])
      && ((name, ts) !in left ==> Gather(c[..i + 1], st, ts) == Gather(c[..i], st, ts))
  {
    DeclaredStep(c, i);
    var name := c[i].name;
    var left := Remove(c[..i], st, ts).pending;
    assert Remove(c[..i + 1], st, ts).pending == left - {(name, ts)} by {
      forall k: Key
        ensures k in Remove(c[..i + 1], st, ts).pending <==> k in left && k != (name, ts)
      {
        assert k == (k.0, k.1);
      }
    }
    if (name, ts) in left {
      assert Gather(c[..i + 1], st, ts) == Gather(c[..i], st, ts)[name := left[(name, ts)]];
    } else {
      assert Gather(c[..i + 1], st, ts) == Gather(c[..i], st, ts);
    }
  }

  method TakeLeast(s: set<int>) returns (m: int)
    requires s != {}
    ensures m in s && forall x :: x in s ==> m <= x
  {
    LeastExists(s);
    m :| m in s && forall x :: x in s ==> m <= x;
  }
}
