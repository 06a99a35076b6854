/**
  The timestamp-synchronised join of a node whose input policy is `sync`.

  The specification works on values: `Deliver` is the transition one delivery makes.
  `SyncNode` is the node's runtime record, whose methods change its fields in place and
  are proved to make exactly that transition. Runs are proved about in `SyncJoinRuns`.
  */
module SyncJoin {
  import opened Packets
  import opened Sequences

  type Port = string
  type PacketSet = map<Port, Packet>
  type Key = (Port, Timestamp)

  datatype PortSpec = PortSpec(name: Port, required: bool)
  type Contract = seq<PortSpec>

  datatype Delivery = Delivery(port: Port, packet: Packet)

  /** `pending` is keyed by port and timestamp; `bounds` holds the last bound accepted on a port. */
  datatype JoinState = JoinState(
    pending: map<Key, Packet>,
    closed: set<Port>,
    bounds: map<Port, Timestamp>,
    eosDispatched: bool)

  /** What a delivery leads to: nothing yet, a refused packet, or one invocation of the node. */
  datatype Outcome =
    | Waiting
    | Rejected
    | InvokeData(ts: Timestamp, inputs: PacketSet)
    | InvokeEos(inputs: PacketSet)

  const INITIAL := JoinState(map[], {}, map[], false)

  function Required(c: Contract): set<Port> {
    set i | 0 <= i < |c| && c[i].required :: c[i].name
  }

  function Declared(c: Contract): set<Port> {
    set i | 0 <= i < |c| :: c[i].name
  }

  /** No packet with this timestamp can be delivered on the port any more. */
  predicate Exhausted(st: JoinState, port: Port, ts: Timestamp) {
    || port in st.closed
    || (&& port in st.bounds
        && (st.bounds[port] == DONE || (IsRange(st.bounds[port]) && st.bounds[port] > ts)))
  }

  /** Some required port holds no packet with this timestamp and never will. */
  ghost predicate Impossible(c: Contract, st: JoinState, ts: Timestamp) {
    exists p :: p in Required(c) && (p, ts) !in st.pending && Exhausted(st, p, ts)
  }

  ghost function Prune(c: Contract, st: JoinState): (r: JoinState) {
    st.(pending := map k | k in st.pending && !Impossible(c, st, k.1) :: st.pending[k])
  }

  ghost predicate Ready(c: Contract, st: JoinState, ts: Timestamp) {
    forall p :: p in Required(c) ==> (p, ts) in st.pending
  }

  /** The timestamps buffered on `port` that every required port has as well. */
  ghost function ReadyOn(c: Contract, st: JoinState, port: Port): set<int> {
    set k | k in st.pending && k.0 == port && Ready(c, st, k.1) :: k.1 as int
  }

  ghost function Gather(c: Contract, st: JoinState, ts: Timestamp): PacketSet {
    map p | p in Declared(c) && (p, ts) in st.pending :: st.pending[(p, ts)]
  }

  ghost function Remove(c: Contract, st: JoinState, ts: Timestamp): JoinState {
    st.(pending := map k | k in st.pending && !(k.0 in Declared(c) && k.1 == ts) :: st.pending[k])
  }

  function EosInputs(c: Contract): PacketSet {
    map p | p in Required(c) :: EOS_PACKET
  }

  /** Record the packet: an end-of-stream closes its port, anything else is buffered. */
  function Record(st: JoinState, d: Delivery): JoinState {
    if d.packet.event == EndOfStream then
      st.(closed := st.closed + {d.port})
    else
      st.(pending := st.pending[(d.port, d.packet.ts) := d.packet])
  }

  /** Pick what a pruned state can hand out after a delivery on `port`. */
  ghost function Dispatch(c: Contract, st: JoinState, port: Port): (JoinState, Outcome) {
    var ready := ReadyOn(c, st, port);
    if ready != {} then
      var ts := Least(ready);
      (Remove(c, st, ts), InvokeData(ts, Gather(c, st, ts)))
    else if Required(c) <= st.closed && !st.eosDispatched then
      (st.(eosDispatched := true), InvokeEos(EosInputs(c)))
    else
      (st, Waiting)
  }

  ghost function Deliver(c: Contract, st: JoinState, d: Delivery): (JoinState, Outcome) {
    if d.packet.event == TimestampBound then
      if d.port in st.bounds && d.packet.ts < st.bounds[d.port] then
        (st, Rejected)
      else
        (Prune(c, st.(bounds := st.bounds[d.port := d.packet.ts])), Waiting)
    else if d.packet.event != EndOfStream && !IsRange(d.packet.ts) then
      (st, Rejected)
    else
      Dispatch(c, Prune(c, Record(st, d)), d.port)
  }
}
