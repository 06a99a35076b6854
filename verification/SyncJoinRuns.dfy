/**
  Whole runs of the sync join. For every interleaving of disciplined port streams the
  data sets handed out are the sorted intersection of the required ports' timestamps.
  */
module SyncJoinRuns {
  import opened Packets
  import opened Sequences
  import opened SyncJoin

  type History = seq<Delivery>

  /** One data set handed to the node, with the packets of the required ports only. */
  datatype Matched = Matched(ts: int, inputs: PacketSet)

  // ---------------------------------------------------------------------------
  // What a history says, without reference to the join
  // ---------------------------------------------------------------------------

  /** A delivery the join buffers: anything but control, with a range timestamp. */
  predicate IsDatum(d: Delivery) {
    !d.packet.IsControl() && IsRange(d.packet.ts)
  }

  /** Data timestamps delivered on a port. */
  function Stamps(h: History, p: Port): set<int> {
    if h == [] then {}
    else if Final(h).port == p && IsDatum(Final(h)) then Stamps(Front(h), p) + {Final(h).packet.ts as int}
    else Stamps(Front(h), p)
  }

  /** Bounds delivered on a port. */
  function BoundsOf(h: History, p: Port): set<int> {
    if h == [] then {}
    else if Final(h).port == p && Final(h).packet.event == TimestampBound
    then BoundsOf(Front(h), p) + {Final(h).packet.ts as int}
    else BoundsOf(Front(h), p)
  }

  /** Ports that have delivered end-of-stream. */
  function ClosedBy(h: History): set<Port> {
    if h == [] then {}
    else if Final(h).packet.event == EndOfStream then ClosedBy(Front(h)) + {Final(h).port}
    else ClosedBy(Front(h))
  }

  /** The latest datum delivered on a port with a given timestamp. */
  function PacketAt(h: History, p: Port, t: int): Packet
    requires t in Stamps(h, p)
  {
    if Final(h).port == p && IsDatum(Final(h)) && Final(h).packet.ts == t then Final(h).packet
    else PacketAt(Front(h), p, t)
  }

  /** A datum on a required port comes after no end-of-stream, at or above every bound, above every earlier datum. */
  predicate InDiscipline(c: Contract, h: History, d: Delivery) {
    d.port in Required(c) && IsDatum(d) ==>
      && d.port !in ClosedBy(h)
      && (forall b: int :: b in BoundsOf(h, d.port) ==> b <= d.packet.ts)
      && (forall t: int :: t in Stamps(h, d.port) ==> t < d.packet.ts)
  }

  predicate Disciplined(c: Contract, h: History) {
    h == [] || (Disciplined(c, Front(h)) && InDiscipline(c, Front(h), Final(h)))
  }

  /** Timestamps delivered on every required port. */
  ghost function Intersection(c: Contract, h: History): set<int>
    requires Required(c) != {}
  {
    var p := Anchor(c);
    set t | t in Stamps(h, p) && forall q :: q in Required(c) ==> t in Stamps(h, q)
  }

  ghost function Anchor(c: Contract): (p: Port)
    requires Required(c) != {}
    ensures p in Required(c)
  {
    var p :| p in Required(c);
    p
  }

  lemma IntersectionMeaning(c: Contract, h: History, t: int)
    requires Required(c) != {}
    ensures t in Intersection(c, h) <==> forall q :: q in Required(c) ==> t in Stamps(h, q)
  {
  }

  /** The simple join: sort the intersection and look every packet up. */
  ghost function SortedIntersection(c: Contract, h: History): (r: seq<Matched>)
    requires Required(c) != {}
  {
    var ts := Sorted(Intersection(c, h));
    seq(|ts|, i requires 0 <= i < |ts| =>
      assert ts[i] in Elements(ts);
      MatchedAt(c, h, ts[i]))
  }

  ghost function MatchedAt(c: Contract, h: History, t: int): Matched
    requires Required(c) != {} && t in Intersection(c, h)
  {
    Matched(t, map q | q in Required(c) :: PacketAt(h, q, t))
  }

  // ---------------------------------------------------------------------------
  // Runs of the join
  // ---------------------------------------------------------------------------

  ghost function StateAfter(c: Contract, h: History): JoinState {
    if h == [] then INITIAL else Deliver(c, StateAfter(c, Front(h)), Final(h)).0
  }

  /** The outcome of the last delivery of a history. */
  ghost function LastOutcome(c: Contract, h: History): Outcome
    requires h != []
  {
    Deliver(c, StateAfter(c, Front(h)), Final(h)).1
  }

  /** The data sets handed out over a history, required ports only. */
  ghost function HandedOut(c: Contract, h: History): seq<Matched> {
    if h == [] then []
    else
      match LastOutcome(c, h)
      case InvokeData(ts, inputs) => HandedOut(c, Front(h)) +
        [Matched(ts, map q | q in Required(c) && q in inputs :: inputs[q])]
      case _ => HandedOut(c, Front(h))
  }

  /** How many end-of-stream sets were handed out over a history. */
  ghost function EosCount(c: Contract, h: History): nat {
    if h == [] then 0
    else EosCount(c, Front(h)) + (if LastOutcome(c, h).InvokeEos? then 1 else 0)
  }

  // ---------------------------------------------------------------------------
  // The invariant every disciplined delivery keeps
  // ---------------------------------------------------------------------------

  /** Port `q` has not delivered `t` and, by its end-of-stream or its bound, never will. */
  ghost predicate Dead(c: Contract, h: History, st: JoinState, t: Timestamp) {
    exists q :: q in Required(c) && t !in Stamps(h, q) && Exhausted(st, q, t)
  }

  ghost predicate Tracks(h: History, st: JoinState) {
    && st.closed == ClosedBy(h)
    && (forall p :: p in st.bounds ==> st.bounds[p] in BoundsOf(h, p))
  }

  ghost predicate Buffered(c: Contract, h: History, st: JoinState) {
    forall k :: k in st.pending && k.0 in Required(c) ==>
      k.1 in Stamps(h, k.0) && st.pending[k] == PacketAt(h, k.0, k.1)
  }

  /** A delivered timestamp is buffered, was matched, or can no longer match. */
  ghost predicate Accounted(c: Contract, h: History, st: JoinState)
    requires Required(c) != {}
  {
    forall p, t: Timestamp :: p in Required(c) && t in Stamps(h, p) ==>
      (p, t) in st.pending || t in Intersection(c, h) || Dead(c, h, st, t)
  }

  ghost predicate NoneMatchedBuffered(c: Contract, h: History, st: JoinState)
    requires Required(c) != {}
  {
    forall k :: k in st.pending && k.0 in Required(c) ==> k.1 !in Intersection(c, h)
  }

  ghost predicate NoneImpossible(c: Contract, st: JoinState) {
    forall k :: k in st.pending && k.0 in Required(c) ==> !Impossible(c, st, k.1)
  }

  ghost predicate Inv(c: Contract, h: History, st: JoinState)
    requires Required(c) != {}
  {
    && Tracks(h, st)
    && Buffered(c, h, st)
    && Accounted(c, h, st)
    && NoneMatchedBuffered(c, h, st)
    && (st.eosDispatched <==> Required(c) <= st.closed)
    && (st.eosDispatched ==> st.pending == map[])
  }

  /** What holds between recording a packet and handing anything out. */
  ghost predicate Mid(c: Contract, h: History, st: JoinState)
    requires Required(c) != {}
  {
    Tracks(h, st) && Buffered(c, h, st) && Accounted(c, h, st)
  }

  lemma Unfold(h: History, d: Delivery)
    ensures Front(h + [d]) == h && Final(h + [d]) == d
  {
  }

  lemma IntersectionStep(c: Contract, h: History, d: Delivery)
    requires Required(c) != {}
    ensures Intersection(c, h) <= Intersection(c, h + [d])
    ensures d.port !in Required(c) || !IsDatum(d) ==> Intersection(c, h + [d]) == Intersection(c, h)
    ensures Intersection(c, h + [d]) <= Intersection(c, h) + {d.packet.ts as int}
  {
    Unfold(h, d);
    forall p
      ensures Stamps(h, p) <= Stamps(h + [d], p) <= Stamps(h, p) + {d.packet.ts as int}
      ensures p != d.port || !IsDatum(d) ==> Stamps(h + [d], p) == Stamps(h, p)
    {
    }
    forall t
      ensures t in Intersection(c, h) ==> t in Intersection(c, h + [d])
      ensures t in Intersection(c, h + [d]) ==> t in Intersection(c, h) || t == d.packet.ts as int
      ensures d.port !in Required(c) || !IsDatum(d) ==> (t in Intersection(c, h + [d]) <==> t in Intersection(c, h))
    {
      IntersectionMeaning(c, h, t);
      IntersectionMeaning(c, h + [d], t);
    }
  }

  /** Exhaustion of a required port is never contradicted by a disciplined datum. */
  lemma DeadPersists(c: Contract, h: History, d: Delivery, before: JoinState, after: JoinState, t: Timestamp)
    requires Tracks(h, before) && InDiscipline(c, h, d) && Dead(c, h, before, t)
    requires forall q :: Exhausted(before, q, t) ==> Exhausted(after, q, t)
    ensures Dead(c, h + [d], after, t)
  {
    Unfold(h, d);
    var q :| q in Required(c) && t !in Stamps(h, q) && Exhausted(before, q, t);
    assert t !in Stamps(h + [d], q);
  }

  lemma PruneKeepsMid(c: Contract, h: History, st: JoinState)
    requires Required(c) != {} && Mid(c, h, st)
    ensures Mid(c, h, Prune(c, st))
  {
    var pruned := Prune(c, st);
    forall p, t: Timestamp | p in Required(c) && t in Stamps(h, p)
      ensures (p, t) in pruned.pending || t in Intersection(c, h) || Dead(c, h, pruned, t)
    {
      if (p, t) in st.pending && (p, t) !in pruned.pending {
        var q :| q in Required(c) && (q, t) !in st.pending && Exhausted(st, q, t);
        if t !in Stamps(h, q) {
          assert Exhausted(pruned, q, t);
        }
      }
      if Dead(c, h, st, t) {
        var q :| q in Required(c) && t !in Stamps(h, q) && Exhausted(st, q, t);
        assert Exhausted(pruned, q, t);
      }
    }
  }

  /** A timestamp buffered on every required port is in the intersection. */
  lemma ReadyIsMatched(c: Contract, h: History, st: JoinState, t: Timestamp)
    requires Required(c) != {} && Buffered(c, h, st) && Ready(c, st, t)
    ensures t in Intersection(c, h)
  {
    forall q | q in Required(c)
      ensures t in Stamps(h, q)
    {
      assert (q, t) in st.pending;
    }
  }

  lemma NothingReady(c: Contract, h: History, st: JoinState, port: Port)
    requires Required(c) != {} && Buffered(c, h, st) && NoneMatchedBuffered(c, h, st)
    ensures ReadyOn(c, st, port) == {}
  {
    var anchor := Anchor(c);
    forall k | k in st.pending
      ensures !Ready(c, st, k.1)
    {
      if Ready(c, st, k.1) {
        assert (anchor, k.1) in st.pending;
        ReadyIsMatched(c, h, st, k.1);
      }
    }
  }

  /** Once every required port is closed, pruning leaves nothing buffered on any port. */
  lemma ClosedPrunesAll(c: Contract, h: History, st: JoinState)
    requires Required(c) != {} && Buffered(c, h, st) && NoneMatchedBuffered(c, h, st)
    requires Required(c) <= st.closed
    ensures Prune(c, st).pending == map[]
  {
    var anchor := Anchor(c);
    forall k | k in st.pending
      ensures Impossible(c, st, k.1)
    {
      if Ready(c, st, k.1) {
        assert (anchor, k.1) in st.pending;
        ReadyIsMatched(c, h, st, k.1);
      } else {
        var p :| p in Required(c) && (p, k.1) !in st.pending;
        assert Exhausted(st, p, k.1);
      }
    }
    assert Prune(c, st).pending.Keys == {};
  }

  /** The outcome a history asks for when `d` is delivered after `h`. */
  ghost predicate OutcomeFits(c: Contract, h: History, d: Delivery, out: Outcome)
    requires Required(c) != {}
  {
    && (out.InvokeData? <==> Intersection(c, h + [d]) != Intersection(c, h))
    && (out.InvokeData? ==>
        && d.port in Required(c) && IsDatum(d) && out.ts == d.packet.ts
        && Intersection(c, h + [d]) == Intersection(c, h) + {d.packet.ts as int}
        && CarriesDelivered(c, h + [d], out.ts, out.inputs))
    && (out.InvokeEos? <==> !(Required(c) <= ClosedBy(h)) && Required(c) <= ClosedBy(h + [d]))
    && (out.InvokeEos? ==> out.inputs == EosInputs(c))
  }

  ghost predicate CarriesDelivered(c: Contract, h: History, t: Timestamp, inputs: PacketSet) {
    forall q :: q in Required(c) ==> q in inputs && t in Stamps(h, q) && inputs[q] == PacketAt(h, q, t)
  }

  /** Bounds only ever grow, so an exhausted port stays exhausted. */
  lemma BoundStep(c: Contract, h: History, d: Delivery, st: JoinState)
    requires Required(c) != {} && Inv(c, h, st) && d.packet.event == TimestampBound
    ensures Inv(c, h + [d], Deliver(c, st, d).0)
    ensures OutcomeFits(c, h, d, Deliver(c, st, d).1)
  {
    Unfold(h, d);
    IntersectionStep(c, h, d);
    var bounded := if d.port in st.bounds && d.packet.ts < st.bounds[d.port] then st
                   else st.(bounds := st.bounds[d.port := d.packet.ts]);
    assert Mid(c, h + [d], bounded) by {
      forall p, t: Timestamp | p in Required(c) && t in Stamps(h + [d], p)
        ensures (p, t) in bounded.pending || t in Intersection(c, h + [d]) || Dead(c, h + [d], bounded, t)
      {
        if Dead(c, h, st, t) { DeadPersists(c, h, d, st, bounded, t); }
      }
    }
    PruneKeepsMid(c, h + [d], bounded);
  }

  /** Recording a packet that adds nothing to the intersection. */
  lemma RecordQuiet(c: Contract, h: History, d: Delivery, st: JoinState)
    requires Required(c) != {} && Inv(c, h, st) && d.packet.event != TimestampBound
    requires d.packet.event == EndOfStream || IsRange(d.packet.ts)
    requires d.packet.event == EndOfStream || d.port !in Required(c)
    ensures Mid(c, h + [d], Record(st, d)) && NoneMatchedBuffered(c, h + [d], Record(st, d))
  {
    Unfold(h, d);
    IntersectionStep(c, h, d);
    var recorded := Record(st, d);
    forall p, t: Timestamp | p in Required(c) && t in Stamps(h + [d], p)
      ensures (p, t) in recorded.pending || t in Intersection(c, h + [d]) || Dead(c, h + [d], recorded, t)
    {
      if Dead(c, h, st, t) { DeadPersists(c, h, d, st, recorded, t); }
    }
  }

  /** Recording a disciplined datum on a required port. */
  lemma RecordDatum(c: Contract, h: History, d: Delivery, st: JoinState)
    requires Required(c) != {} && Inv(c, h, st) && InDiscipline(c, h, d)
    requires IsDatum(d) && d.port in Required(c)
    ensures Mid(c, h + [d], Record(st, d))
    ensures d.packet.ts !in Intersection(c, h)
  {
    Unfold(h, d);
    IntersectionStep(c, h, d);
    IntersectionMeaning(c, h, d.packet.ts);
    var recorded := Record(st, d);
    forall p, t: Timestamp | p in Required(c) && t in Stamps(h + [d], p)
      ensures (p, t) in recorded.pending || t in Intersection(c, h + [d]) || Dead(c, h + [d], recorded, t)
    {
      if Dead(c, h, st, t) { DeadPersists(c, h, d, st, recorded, t); }
    }
  }

  /** When a datum completes its timestamp, every required port still buffers it: pruning lost nothing. */
  lemma CompletedIsReady(c: Contract, h: History, d: Delivery, st: JoinState)
    requires Required(c) != {} && Inv(c, h, st) && InDiscipline(c, h, d)
    requires IsDatum(d) && d.port in Required(c) && d.packet.ts in Intersection(c, h + [d])
    ensures Ready(c, Record(st, d), d.packet.ts)
    ensures Ready(c, Prune(c, Record(st, d)), d.packet.ts)
  {
    Unfold(h, d);
    var t := d.packet.ts;
    IntersectionMeaning(c, h, t);
    IntersectionMeaning(c, h + [d], t);
    assert !Exhausted(st, d.port, t);
    forall q | q in Required(c)
      ensures (q, t) in Record(st, d).pending
    {
      if q != d.port {
        assert t in Stamps(h, q);
        assert forall r :: r in Required(c) && r != d.port ==> t in Stamps(h + [d], r);
        assert !Dead(c, h, st, t);
      }
    }
    assert !Impossible(c, Record(st, d), t);
  }

  lemma ReadyAfterDatum(c: Contract, h: History, d: Delivery, st: JoinState)
    requires Required(c) != {} && Inv(c, h, st) && InDiscipline(c, h, d)
    requires IsDatum(d) && d.port in Required(c)
    ensures ReadyOn(c, Prune(c, Record(st, d)), d.port)
         == if d.packet.ts in Intersection(c, h + [d]) then {d.packet.ts as int} else {}
  {
    var pruned := Prune(c, Record(st, d));
    RecordDatum(c, h, d, st);
    PruneKeepsMid(c, h + [d], Record(st, d));
    IntersectionStep(c, h, d);
    forall k | k in pruned.pending && k.0 == d.port && Ready(c, pruned, k.1)
      ensures k.1 == d.packet.ts && k.1 in Intersection(c, h + [d])
    {
      ReadyIsMatched(c, h + [d], pruned, k.1);
      assert k.1 != d.packet.ts ==> k in st.pending;
    }
    if d.packet.ts in Intersection(c, h + [d]) {
      CompletedIsReady(c, h, d, st);
      assert (d.port, d.packet.ts) in pruned.pending;
    }
  }

  /** Handing out the only match that is buffered leaves a state with no match buffered. */
  lemma RemoveKeeps(c: Contract, h: History, st: JoinState, t: Timestamp)
    requires Required(c) != {} && Mid(c, h, st) && t in Intersection(c, h)
    requires forall k :: k in st.pending && k.0 in Required(c) && k.1 != t ==> k.1 !in Intersection(c, h)
    ensures Mid(c, h, Remove(c, st, t)) && NoneMatchedBuffered(c, h, Remove(c, st, t))
  {
    RequiredAreDeclared(c);
    var after := Remove(c, st, t);
    forall p, u: Timestamp | p in Required(c) && u in Stamps(h, p)
      ensures (p, u) in after.pending || u in Intersection(c, h) || Dead(c, h, after, u)
    {
      if Dead(c, h, st, u) {
        var q :| q in Required(c) && u !in Stamps(h, q) && Exhausted(st, q, u);
        assert Exhausted(after, q, u);
      }
    }
  }

  /** A disciplined datum on a required port hands out its own timestamp if that completes it, and nothing otherwise. */
  lemma DatumShape(c: Contract, h: History, d: Delivery, st: JoinState)
    requires Required(c) != {} && Inv(c, h, st) && InDiscipline(c, h, d)
    requires IsDatum(d) && d.port in Required(c)
    ensures
      var pruned := Prune(c, Record(st, d));
      Deliver(c, st, d) ==
        if d.packet.ts in Intersection(c, h + [d])
        then (Remove(c, pruned, d.packet.ts), InvokeData(d.packet.ts, Gather(c, pruned, d.packet.ts)))
        else (pruned, Waiting)
  {
    var pruned := Prune(c, Record(st, d));
    ReadyAfterDatum(c, h, d, st);
    assert d.port in Required(c) && d.port !in pruned.closed;
    assert Least({d.packet.ts as int}) == d.packet.ts;
  }

  lemma GatherCarries(c: Contract, h: History, st: JoinState, t: Timestamp)
    requires Buffered(c, h, st) && Ready(c, st, t)
    ensures CarriesDelivered(c, h, t, Gather(c, st, t))
  {
    RequiredAreDeclared(c);
    forall q | q in Required(c)
      ensures q in Gather(c, st, t) && t in Stamps(h, q) && Gather(c, st, t)[q] == PacketAt(h, q, t)
    {
      assert (q, t) in st.pending;
    }
  }

  lemma MatchedAfterDatum(c: Contract, h: History, d: Delivery, st: JoinState)
    requires Required(c) != {} && Inv(c, h, st) && InDiscipline(c, h, d)
    requires IsDatum(d) && d.port in Required(c) && d.packet.ts in Intersection(c, h + [d])
    ensures
      var pruned := Prune(c, Record(st, d));
      && Mid(c, h + [d], Remove(c, pruned, d.packet.ts)) &&
        NoneMatchedBuffered(c, h + [d], Remove(c, pruned, d.packet.ts))
      && CarriesDelivered(c, h + [d], d.packet.ts, Gather(c, pruned, d.packet.ts))
  {
    var pruned := Prune(c, Record(st, d));
    RecordDatum(c, h, d, st);
    PruneKeepsMid(c, h + [d], Record(st, d));
    IntersectionStep(c, h, d);
    CompletedIsReady(c, h, d, st);
    GatherCarries(c, h + [d], pruned, d.packet.ts);
    RemoveKeeps(c, h + [d], pruned, d.packet.ts);
  }

  lemma UnmatchedAfterDatum(c: Contract, h: History, d: Delivery, st: JoinState)
    requires Required(c) != {} && Inv(c, h, st) && InDiscipline(c, h, d)
    requires IsDatum(d) && d.port in Required(c) && d.packet.ts !in Intersection(c, h + [d])
    ensures
      var pruned := Prune(c, Record(st, d));
      Mid(c, h + [d], pruned) && NoneMatchedBuffered(c, h + [d], pruned)
  {
    RecordDatum(c, h, d, st);
    PruneKeepsMid(c, h + [d], Record(st, d));
    IntersectionStep(c, h, d);
  }

  lemma DatumStep(c: Contract, h: History, d: Delivery, st: JoinState)
    requires Required(c) != {} && Inv(c, h, st) && InDiscipline(c, h, d)
    requires IsDatum(d) && d.port in Required(c)
    ensures Inv(c, h + [d], Deliver(c, st, d).0)
  {
    DatumShape(c, h, d, st);
    Unfold(h, d);
    if d.packet.ts in Intersection(c, h + [d]) {
      MatchedAfterDatum(c, h, d, st);
    } else {
      UnmatchedAfterDatum(c, h, d, st);
    }
  }

  lemma RequiredAreDeclared(c: Contract)
    ensures Required(c) <= Declared(c)
  {
  }

  /** An end-of-stream, or a datum on an optional port, hands out no data. */
  lemma QuietStep(c: Contract, h: History, d: Delivery, st: JoinState)
    requires Required(c) != {} && Inv(c, h, st) && d.packet.event != TimestampBound
    requires d.packet.event == EndOfStream || IsRange(d.packet.ts)
    requires d.packet.event == EndOfStream || d.port !in Required(c)
    ensures Inv(c, h + [d], Deliver(c, st, d).0)
    ensures
      var out := Deliver(c, st, d).1;
      if !(Required(c) <= ClosedBy(h)) && Required(c) <= ClosedBy(h + [d])
      then out == InvokeEos(EosInputs(c)) else out == Waiting
    ensures OutcomeFits(c, h, d, Deliver(c, st, d).1)
  {
    IntersectionStep(c, h, d);
    var recorded := Record(st, d);
    var pruned := Prune(c, recorded);
    Unfold(h, d);
    RecordQuiet(c, h, d, st);
    PruneKeepsMid(c, h + [d], recorded);
    NothingReady(c, h + [d], pruned, d.port);
    if Required(c) <= recorded.closed {
      ClosedPrunesAll(c, h + [d], recorded);
    }
    var after := Deliver(c, st, d).0;
    forall p, u: Timestamp | p in Required(c) && u in Stamps(h + [d], p)
      ensures (p, u) in after.pending || u in Intersection(c, h + [d]) || Dead(c, h + [d], after, u)
    {
      if Dead(c, h + [d], pruned, u) {
        var q :| q in Required(c) && u !in Stamps(h + [d], q) && Exhausted(pruned, q, u);
        assert Exhausted(after, q, u);
      }
    }
  }

  /** One delivery: the invariant is kept, and the outcome is fixed by the history alone. */
  lemma StepKeeps(c: Contract, h: History, d: Delivery, st: JoinState)
    requires Required(c) != {} && Inv(c, h, st) && InDiscipline(c, h, d)
    ensures Inv(c, h + [d], Deliver(c, st, d).0)
    ensures OutcomeFits(c, h, d, Deliver(c, st, d).1)
  {
    if d.packet.event == TimestampBound {
      BoundStep(c, h, d, st);
    } else if d.packet.event != EndOfStream && !IsRange(d.packet.ts) {
      RejectedStep(c, h, d, st);
    } else if d.packet.event == EndOfStream || d.port !in Required(c) {
      QuietStep(c, h, d, st);
    } else {
      DatumFits(c, h, d, st);
      DatumStep(c, h, d, st);
    }
  }

  lemma NotMatchedYet(c: Contract, h: History, d: Delivery)
    requires Required(c) != {} && InDiscipline(c, h, d) && IsDatum(d) && d.port in Required(c)
    ensures d.packet.ts as int !in Intersection(c, h)
  {
    IntersectionMeaning(c, h, d.packet.ts);
  }

  lemma DatumOutcome(c: Contract, h: History, d: Delivery, st: JoinState)
    requires Required(c) != {} && Inv(c, h, st) && InDiscipline(c, h, d)
    requires IsDatum(d) && d.port in Required(c)
    ensures
      var out := Deliver(c, st, d).1;
      if d.packet.ts in Intersection(c, h + [d]) then
        out.InvokeData? && out.ts == d.packet.ts && CarriesDelivered(c, h + [d], out.ts, out.inputs)
      else out == Waiting
  {
    DatumShape(c, h, d, st);
    if d.packet.ts in Intersection(c, h + [d]) {
      MatchedAfterDatum(c, h, d, st);
    }
  }

  lemma DatumFits(c: Contract, h: History, d: Delivery, st: JoinState)
    requires Required(c) != {} && Inv(c, h, st) && InDiscipline(c, h, d)
    requires IsDatum(d) && d.port in Required(c)
    ensures OutcomeFits(c, h, d, Deliver(c, st, d).1)
  {
    DatumOutcome(c, h, d, st);
    NotMatchedYet(c, h, d);
    IntersectionStep(c, h, d);
    Unfold(h, d);
  }

  lemma RejectedStep(c: Contract, h: History, d: Delivery, st: JoinState)
    requires Required(c) != {} && Inv(c, h, st) && !d.packet.IsControl() && !IsRange(d.packet.ts)
    ensures Inv(c, h + [d], st)
    ensures OutcomeFits(c, h, d, Rejected)
  {
    Unfold(h, d);
    IntersectionStep(c, h, d);
    forall p, t: Timestamp | p in Required(c) && t in Stamps(h + [d], p)
      ensures (p, t) in st.pending || t in Intersection(c, h + [d]) || Dead(c, h + [d], st, t)
    {
      if Dead(c, h, st, t) {
        var q :| q in Required(c) && t !in Stamps(h, q) && Exhausted(st, q, t);
        assert t !in Stamps(h + [d], q);
      }
    }
  }

  lemma {:induction false} RunKeepsInv(c: Contract, h: History)
    requires Required(c) != {} && Disciplined(c, h)
    ensures Inv(c, h, StateAfter(c, h))
  {
    if h != [] {
      RunKeepsInv(c, Front(h));
      assert h == Front(h) + [Final(h)];
      StepKeeps(c, Front(h), Final(h), StateAfter(c, Front(h)));
    }
  }

  // ---------------------------------------------------------------------------
  // Main results
  // ---------------------------------------------------------------------------

  ghost function StampsOf(out: seq<Matched>): seq<int> {
    seq(|out|, i requires 0 <= i < |out| => out[i].ts)
  }

  /** An ascending sequence of exactly the matches of a history, each with the delivered packets. */
  ghost predicate IsJoinOf(c: Contract, h: History, out: seq<Matched>)
    requires Required(c) != {}
  {
    && StrictlyAscending(StampsOf(out))
    && Elements(StampsOf(out)) == Intersection(c, h)
    && (forall m :: m in out ==> m.ts in Intersection(c, h) && m == MatchedAt(c, h, m.ts))
  }

  lemma JoinUnchanged(c: Contract, h: History, d: Delivery, out: seq<Matched>)
    requires Required(c) != {} && InDiscipline(c, h, d) && IsJoinOf(c, h, out)
    requires Intersection(c, h + [d]) == Intersection(c, h)
    ensures IsJoinOf(c, h + [d], out)
  {
    MatchedPersists(c, h, d);
  }

  lemma JoinExtended(c: Contract, h: History, d: Delivery, out: seq<Matched>)
    requires Required(c) != {} && InDiscipline(c, h, d) && IsJoinOf(c, h, out)
    requires IsDatum(d) && d.port in Required(c)
    requires Intersection(c, h + [d]) == Intersection(c, h) + {d.packet.ts as int}
    ensures IsJoinOf(c, h + [d], out + [MatchedAt(c, h + [d], d.packet.ts)])
  {
    var m := MatchedAt(c, h + [d], d.packet.ts);
    MatchedPersists(c, h, d);
    AscendsPast(c, h, d);
    assert StampsOf(out + [m]) == StampsOf(out) + [m.ts];
    assert forall i :: 0 <= i < |out| ==> StampsOf(out)[i] in Elements(StampsOf(out));
    assert forall x :: x in StampsOf(out) + [m.ts] <==> x in Elements(StampsOf(out)) || x == m.ts;
  }

  lemma CarriedAreMatched(c: Contract, h: History, t: Timestamp, inputs: PacketSet)
    requires Required(c) != {} && t in Intersection(c, h) && CarriesDelivered(c, h, t, inputs)
    ensures (map q | q in Required(c) && q in inputs :: inputs[q]) == MatchedAt(c, h, t).inputs
  {
  }

  lemma {:induction false} HandedOutIsJoin(c: Contract, h: History)
    requires Required(c) != {} && Disciplined(c, h)
    ensures IsJoinOf(c, h, HandedOut(c, h))
  {
    if h == [] {
      assert Stamps(h, Anchor(c)) == {};
    } else {
      var prior := Front(h);
      var d := Final(h);
      assert h == prior + [d];
      HandedOutIsJoin(c, prior);
      RunKeepsInv(c, prior);
      StepKeeps(c, prior, d, StateAfter(c, prior));
      if LastOutcome(c, h).InvokeData? {
        JoinExtended(c, prior, d, HandedOut(c, prior));
        CarriedAreMatched(c, h, LastOutcome(c, h).ts, LastOutcome(c, h).inputs);
      } else {
        JoinUnchanged(c, prior, d, HandedOut(c, prior));
      }
    }
  }

  /** A new match lies above every earlier one, because its port's stream ascends. */
  lemma AscendsPast(c: Contract, h: History, d: Delivery)
    requires Required(c) != {} && InDiscipline(c, h, d) && IsDatum(d) && d.port in Required(c)
    ensures forall t :: t in Intersection(c, h) ==> t < d.packet.ts
  {
    forall t | t in Intersection(c, h)
      ensures t < d.packet.ts
    {
      IntersectionMeaning(c, h, t);
      assert t in Stamps(h, d.port);
    }
  }

  lemma MatchedPersists(c: Contract, h: History, d: Delivery)
    requires Required(c) != {} && InDiscipline(c, h, d)
    ensures forall t :: t in Intersection(c, h) ==>
      t in Intersection(c, h + [d]) && MatchedAt(c, h + [d], t) == MatchedAt(c, h, t)
  {
    Unfold(h, d);
    IntersectionStep(c, h, d);
    forall t | t in Intersection(c, h)
      ensures MatchedAt(c, h + [d], t) == MatchedAt(c, h, t)
    {
      IntersectionMeaning(c, h, t);
      forall q | q in Required(c)
        ensures PacketAt(h + [d], q, t) == PacketAt(h, q, t)
      {
        assert t in Stamps(h, q);
      }
    }
  }

  /** There is one such sequence: the sorted intersection. */
  lemma JoinIsReference(c: Contract, h: History, out: seq<Matched>)
    requires Required(c) != {} && IsJoinOf(c, h, out)
    ensures out == SortedIntersection(c, h)
  {
    var ref := SortedIntersection(c, h);
    AscendingIsUnique(StampsOf(out), Sorted(Intersection(c, h)));
    forall i | 0 <= i < |out|
      ensures out[i] == ref[i]
    {
      assert out[i] in out;
      assert StampsOf(out)[i] == Sorted(Intersection(c, h))[i];
    }
  }

  /** The join refines the simple one: for every disciplined history, whatever the interleaving. */
  lemma JoinRefinesSortedIntersection(c: Contract, h: History)
    requires Required(c) != {} && Disciplined(c, h)
    ensures HandedOut(c, h) == SortedIntersection(c, h)
  {
    HandedOutIsJoin(c, h);
    JoinIsReference(c, h, HandedOut(c, h));
  }

  /** The deliveries of one port, in order. */
  function OnPort(h: History, p: Port): History {
    if h == [] then []
    else if Final(h).port == p then OnPort(Front(h), p) + [Final(h)]
    else OnPort(Front(h), p)
  }

  lemma {:induction false} StampsOnPort(h: History, p: Port)
    ensures Stamps(OnPort(h, p), p) == Stamps(h, p)
    ensures forall t :: t in Stamps(h, p) ==> PacketAt(OnPort(h, p), p, t) == PacketAt(h, p, t)
  {
    if h != [] {
      StampsOnPort(Front(h), p);
      if Final(h).port == p {
        Unfold(OnPort(Front(h), p), Final(h));
      }
    }
  }

  /** Two histories that agree port by port hand out the same data, however they interleave the ports. */
  lemma InterleavingDoesNotMatter(c: Contract, h1: History, h2: History)
    requires Required(c) != {} && Disciplined(c, h1) && Disciplined(c, h2)
    requires forall p :: p in Required(c) ==> OnPort(h1, p) == OnPort(h2, p)
    ensures HandedOut(c, h1) == HandedOut(c, h2)
  {
    forall p | p in Required(c)
      ensures AgreeOn(h1, h2, p)
    {
      StampsOnPort(h1, p);
      StampsOnPort(h2, p);
    }
    SameReference(c, h1, h2);
    JoinRefinesSortedIntersection(c, h1);
    JoinRefinesSortedIntersection(c, h2);
  }

  ghost predicate AgreeOn(h1: History, h2: History, p: Port) {
    && Stamps(h1, p) == Stamps(h2, p)
    && (forall t :: t in Stamps(h1, p) ==> PacketAt(h1, p, t) == PacketAt(h2, p, t))
  }

  lemma SameReference(c: Contract, h1: History, h2: History)
    requires Required(c) != {}
    requires forall p :: p in Required(c) ==> AgreeOn(h1, h2, p)
    ensures SortedIntersection(c, h1) == SortedIntersection(c, h2)
  {
    assert Intersection(c, h1) == Intersection(c, h2) by {
      assert forall p :: p in Required(c) ==> AgreeOn(h1, h2, p);
    }
    forall t | t in Intersection(c, h1)
      ensures MatchedAt(c, h1, t) == MatchedAt(c, h2, t)
    {
      assert forall p :: p in Required(c) ==> AgreeOn(h1, h2, p);
    }
    var ts := Sorted(Intersection(c, h1));
    assert forall i :: 0 <= i < |ts| ==> ts[i] in Elements(ts);
  }

  /**
    End-of-stream is handed out once, exactly on the delivery that closes the last required
    port; nothing is left buffered then, and no data follows.
    */
  lemma {:induction false} EosExactlyOnce(c: Contract, h: History)
    requires Required(c) != {} && Disciplined(c, h)
    ensures EosCount(c, h) == if Required(c) <= ClosedBy(h) then 1 else 0
    ensures h != [] ==>
      (LastOutcome(c, h).InvokeEos? <==> !(Required(c) <= ClosedBy(Front(h))) && Required(c) <= ClosedBy(h))
    ensures Required(c) <= ClosedBy(h) ==> StateAfter(c, h).pending == map[]
    ensures h != [] && Required(c) <= ClosedBy(Front(h)) ==> !LastOutcome(c, h).InvokeData?
  {
    RunKeepsInv(c, h);
    if h != [] {
      EosExactlyOnce(c, Front(h));
      RunKeepsInv(c, Front(h));
      assert h == Front(h) + [Final(h)];
      StepKeeps(c, Front(h), Final(h), StateAfter(c, Front(h)));
    }
  }

  // ---------------------------------------------------------------------------
  // What pruning keeps, exactly
  // ---------------------------------------------------------------------------

  /** By end-of-stream and bounds alone, port `q` may still deliver `t`. */
  predicate Open(h: History, q: Port, t: int) {
    q !in ClosedBy(h) && forall b :: b in BoundsOf(h, q) ==> b <= t
  }

  /** Every required port that lacks `t` may still deliver it, by end-of-stream and bounds alone. */
  ghost predicate OpenFor(c: Contract, h: History, t: int) {
    forall q :: q in Required(c) && t !in Stamps(h, q) ==> Open(h, q, t)
  }

  lemma {:induction false} RunKeepsPruned(c: Contract, h: History)
    ensures NoneImpossible(c, StateAfter(c, h))
  {
    if h != [] {
      RunKeepsPruned(c, Front(h));
      DeliverPrunes(c, StateAfter(c, Front(h)), Final(h));
    }
  }

  lemma DeliverPrunes(c: Contract, st: JoinState, d: Delivery)
    requires NoneImpossible(c, st)
    ensures NoneImpossible(c, Deliver(c, st, d).0)
  {
    if d.packet.event == TimestampBound {
      PruneLeavesNone(c, st.(bounds := st.bounds[d.port := d.packet.ts]));
    } else {
      PruneLeavesNone(c, Record(st, d));
      DispatchLeavesNone(c, Prune(c, Record(st, d)), d.port);
    }
  }

  lemma DispatchLeavesNone(c: Contract, st: JoinState, port: Port)
    requires NoneImpossible(c, st)
    ensures NoneImpossible(c, Dispatch(c, st, port).0)
  {
    var ready := ReadyOn(c, st, port);
    if ready != {} {
      RemoveLeavesNone(c, st, Least(ready));
    }
  }

  lemma RemoveLeavesNone(c: Contract, st: JoinState, ts: Timestamp)
    requires NoneImpossible(c, st)
    ensures NoneImpossible(c, Remove(c, st, ts))
  {
    RequiredAreDeclared(c);
    var left := Remove(c, st, ts);
    forall k | k in left.pending && k.0 in Required(c)
      ensures !Impossible(c, left, k.1)
    {
      assert !Impossible(c, st, k.1);
      assert forall p :: (p, k.1) in left.pending <==> (p, k.1) in st.pending;
      assert forall p :: Exhausted(left, p, k.1) <==> Exhausted(st, p, k.1);
    }
  }

  lemma PruneLeavesNone(c: Contract, st: JoinState)
    ensures NoneImpossible(c, Prune(c, st))
  {
    var pruned := Prune(c, st);
    forall k | k in pruned.pending && k.0 in Required(c)
      ensures !Impossible(c, pruned, k.1)
    {
      forall p | p in Required(c) && (p, k.1) !in pruned.pending
        ensures !Exhausted(pruned, p, k.1)
      {
        assert (p, k.1) !in st.pending;
        assert Exhausted(st, p, k.1) <==> Exhausted(pruned, p, k.1);
      }
    }
  }

  ghost predicate BoundsHighest(h: History, st: JoinState) {
    forall p, b: int :: b in BoundsOf(h, p) ==> p in st.bounds && b <= st.bounds[p]
  }

  lemma DispatchFields(c: Contract, st: JoinState, port: Port)
    ensures Dispatch(c, st, port).0.closed == st.closed && Dispatch(c, st, port).0.bounds == st.bounds
  {
  }

  /** What a delivery does to the bounds and the closed ports. */
  lemma DeliverFields(c: Contract, st: JoinState, d: Delivery)
    ensures
      var after := Deliver(c, st, d).0;
      && after.closed == (if d.packet.event == EndOfStream then st.closed + {d.port} else st.closed)
      && after.bounds ==
         if d.packet.event == TimestampBound && !(d.port in st.bounds && d.packet.ts < st.bounds[d.port])
         then st.bounds[d.port := d.packet.ts] else st.bounds
  {
    if d.packet.event != TimestampBound && (d.packet.event == EndOfStream || IsRange(d.packet.ts)) {
      DispatchFields(c, Prune(c, Record(st, d)), d.port);
    }
  }

  lemma BoundsStep(h: History, d: Delivery, st: JoinState, after: JoinState)
    requires BoundsHighest(h, st) && Tracks(h, st)
    requires after.closed == if d.packet.event == EndOfStream then st.closed + {d.port} else st.closed
    requires after.bounds ==
      if d.packet.event == TimestampBound && !(d.port in st.bounds && d.packet.ts < st.bounds[d.port])
      then st.bounds[d.port := d.packet.ts] else st.bounds
    ensures BoundsHighest(h + [d], after) && Tracks(h + [d], after)
  {
    Unfold(h, d);
  }

  /** The bound a run holds for a port is one it was given, and the highest of them. */
  lemma {:induction false} BoundsAreHighest(c: Contract, h: History)
    ensures BoundsHighest(h, StateAfter(c, h)) && Tracks(h, StateAfter(c, h))
  {
    if h != [] {
      var before, d := Front(h), Final(h);
      BoundsAreHighest(c, before);
      DeliverFields(c, StateAfter(c, before), d);
      BoundsStep(before, d, StateAfter(c, before), StateAfter(c, h));
      assert h == before + [d];
    }
  }

  /** A higher bound has been given on the port. */
  ghost predicate Outbid(h: History, p: Port, ts: int) {
    exists b: int :: b in BoundsOf(h, p) && ts < b
  }

  lemma OutbidIff(h: History, st: JoinState, p: Port, ts: int)
    requires BoundsHighest(h, st) && Tracks(h, st)
    ensures Outbid(h, p, ts) <==> p in st.bounds && ts < st.bounds[p]
  {
    if Outbid(h, p, ts) {
      var b: int :| b in BoundsOf(h, p) && ts < b;
      assert p in st.bounds && b <= st.bounds[p];
    } else if p in st.bounds {
      assert st.bounds[p] in BoundsOf(h, p);
    }
  }

  /** A bound is refused if and only if a higher one came before on its port, and then it changes nothing. */
  lemma BoundRefusedExactlyWhen(c: Contract, h: History, p: Port, x: Packet)
    requires x.event == TimestampBound
    ensures
      var after := h + [Delivery(p, x)];
      && (LastOutcome(c, after) == Rejected <==> Outbid(h, p, x.ts))
      && (LastOutcome(c, after) == Rejected ==> StateAfter(c, after) == StateAfter(c, h))
  {
    BoundsAreHighest(c, h);
    OutbidIff(h, StateAfter(c, h), p, x.ts);
    Unfold(h, Delivery(p, x));
  }

  /**
    The buffer of a required port holds exactly the delivered timestamps that are unmatched
    and that no required port has ruled out by end-of-stream or bound.
    */
  lemma BufferIsExact(c: Contract, h: History, p: Port, t: Timestamp)
    requires Required(c) != {} && Disciplined(c, h) && p in Required(c)
    ensures (p, t) in StateAfter(c, h).pending <==>
            t in Stamps(h, p) && t !in Intersection(c, h) && OpenFor(c, h, t)
  {
    var st := StateAfter(c, h);
    RunKeepsInv(c, h);
    RunKeepsPruned(c, h);
    BoundsAreHighest(c, h);
    if (p, t) in st.pending {
      BufferedAreOpen(c, h, st, p, t);
    } else if t in Stamps(h, p) && t !in Intersection(c, h) && OpenFor(c, h, t) {
      OpenAreBuffered(c, h, st, p, t);
    }
  }

  lemma BufferedAreOpen(c: Contract, h: History, st: JoinState, p: Port, t: Timestamp)
    requires Required(c) != {} && Inv(c, h, st) && NoneImpossible(c, st) && BoundsHighest(h, st)
    requires p in Required(c) && (p, t) in st.pending
    ensures t in Stamps(h, p) && t !in Intersection(c, h) && OpenFor(c, h, t)
  {
    StampsAreRange(h, p);
    assert !Impossible(c, st, t);
    forall q | q in Required(c) && t !in Stamps(h, q)
      ensures Open(h, q, t)
    {
      assert (q, t) !in st.pending;
      assert !Exhausted(st, q, t);
      forall b | b in BoundsOf(h, q)
        ensures b <= t
      {
        assert b <= st.bounds[q];
      }
    }
  }

  lemma OpenAreBuffered(c: Contract, h: History, st: JoinState, p: Port, t: Timestamp)
    requires Required(c) != {} && Inv(c, h, st) && p in Required(c)
    requires t in Stamps(h, p) && t !in Intersection(c, h) && OpenFor(c, h, t)
    ensures (p, t) in st.pending
  {
    StampsAreRange(h, p);
    assert forall q :: q in Required(c) && t !in Stamps(h, q) ==> Open(h, q, t);
    assert !Dead(c, h, st, t);
  }

  lemma {:induction false} StampsAreRange(h: History, p: Port)
    ensures forall t :: t in Stamps(h, p) ==> UNSET < t < DONE
  {
    if h != [] { StampsAreRange(Front(h), p); }
  }

  /** Some disciplined continuation makes `t` match. */
  ghost predicate CanMatch(c: Contract, h: History, t: int)
    requires Required(c) != {}
  {
    exists ext: History :: Disciplined(c, h + ext) && t in Intersection(c, h + ext)
  }

  /** Port `q` lacks `t` and has already delivered a later datum. */
  ghost predicate Passed(h: History, q: Port, t: int) {
    t !in Stamps(h, q) && exists u :: u in Stamps(h, q) && t < u
  }

  ghost predicate NonePassed(c: Contract, h: History, t: int) {
    forall q :: q in Required(c) ==> !Passed(h, q, t)
  }

  /**
    A delivered timestamp can still match exactly when no required port that lacks it has
    been closed, bounded past it, or has delivered a later datum. The join prunes on the
    first two only.
    */
  lemma MatchableExactlyWhen(c: Contract, h: History, p: Port, t: Timestamp)
    requires Required(c) != {} && Disciplined(c, h) && p in Required(c) && t in Stamps(h, p)
    ensures CanMatch(c, h, t) <==> OpenFor(c, h, t) && NonePassed(c, h, t)
  {
    StampsAreRange(h, p);
    if CanMatch(c, h, t) {
      var ext: History :| Disciplined(c, h + ext) && t in Intersection(c, h + ext);
      forall q | q in Required(c) && t !in Stamps(h, q)
        ensures Open(h, q, t) && !Passed(h, q, t)
      {
        IntersectionMeaning(c, h + ext, t);
        LaterDatumWasAllowed(c, h, ext, q, t);
      }
    }
    if OpenFor(c, h, t) && NonePassed(c, h, t) {
      CompleteWith(c, h, t, Required(c));
    }
  }

  /** Buffered but past matching: exactly the timestamps another required port has skipped with data. */
  lemma StaleExactlyWhen(c: Contract, h: History, p: Port, t: Timestamp)
    requires Required(c) != {} && Disciplined(c, h) && p in Required(c) && (p, t) in StateAfter(c, h).pending
    ensures !CanMatch(c, h, t) <==> exists q :: q in Required(c) && Passed(h, q, t)
  {
    BufferIsExact(c, h, p, t);
    MatchableExactlyWhen(c, h, p, t);
  }

  lemma DatumOnly(c: Contract, h: History, d: Delivery)
    requires IsDatum(d) && Disciplined(c, h) && Stamps(h, d.port) == {} && ClosedBy(h) == {}
    requires forall r :: BoundsOf(h, r) == {}
    ensures Disciplined(c, h + [d]) && ClosedBy(h + [d]) == {} && forall r :: BoundsOf(h + [d], r) == {}
    ensures forall r :: Stamps(h + [d], r) == if r == d.port then {d.packet.ts as int} else Stamps(h, r)
  {
    Unfold(h, d);
  }

  lemma TwoDeliveries(c: Contract, p: Port, q: Port, x: Packet, z: Packet)
    requires p != q && IsDatum(Delivery(p, x)) && IsDatum(Delivery(q, z))
    ensures
      var h := [Delivery(p, x), Delivery(q, z)];
      && Disciplined(c, h) && Stamps(h, p) == {x.ts as int} && Stamps(h, q) == {z.ts as int}
      && ClosedBy(h) == {} && forall r :: BoundsOf(h, r) == {}
  {
    var d1, d2 := Delivery(p, x), Delivery(q, z);
    DatumOnly(c, [], d1);
    DatumOnly(c, [] + [d1], d2);
    assert [] + [d1] + [d2] == [d1, d2];
  }

  /** It happens: one port delivers a timestamp, the other skips it, and the packet stays buffered for nothing. */
  lemma SkippedStaysBuffered(c: Contract, p: Port, q: Port, x: Packet, z: Packet)
    requires p != q && Required(c) == {p, q} && IsDatum(Delivery(p, x)) && IsDatum(Delivery(q, z)) && x.ts < z.ts
    ensures
      var h := [Delivery(p, x), Delivery(q, z)];
      Disciplined(c, h) && (p, x.ts) in StateAfter(c, h).pending && !CanMatch(c, h, x.ts)
  {
    var h := [Delivery(p, x), Delivery(q, z)];
    TwoDeliveries(c, p, q, x, z);
    IntersectionMeaning(c, h, x.ts);
    BufferIsExact(c, h, p, x.ts);
    StaleExactlyWhen(c, h, p, x.ts);
    assert z.ts as int in Stamps(h, q) && Passed(h, q, x.ts);
  }

  lemma {:induction false} LaterDatumWasAllowed(c: Contract, h: History, ext: History, q: Port, t: int)
    requires Disciplined(c, h + ext) && q in Required(c) && t !in Stamps(h, q) && t in Stamps(h + ext, q)
    ensures Open(h, q, t) && forall u :: u in Stamps(h, q) ==> u < t
  {
    assert ext == [] ==> h + ext == h;
    if ext != [] {
      assert Front(h + ext) == h + Front(ext) && Final(h + ext) == Final(ext);
      if t in Stamps(h + Front(ext), q) {
        LaterDatumWasAllowed(c, h, Front(ext), q, t);
      } else {
        HistoryGrows(h, Front(ext), q);
      }
    }
  }

  lemma {:induction false} HistoryGrows(h: History, ext: History, q: Port)
    ensures Stamps(h, q) <= Stamps(h + ext, q) && BoundsOf(h, q) <= BoundsOf(h + ext, q)
    ensures ClosedBy(h) <= ClosedBy(h + ext)
  {
    if ext == [] {
      assert h + ext == h;
    } else {
      assert Front(h + ext) == h + Front(ext);
      HistoryGrows(h, Front(ext), q);
    }
  }

  lemma StillOpen(c: Contract, h: History, d: Delivery, t: Timestamp)
    requires OpenFor(c, h, t) && NonePassed(c, h, t) && IsDatum(d) && d.packet.ts == t
    ensures OpenFor(c, h + [d], t) && NonePassed(c, h + [d], t)
  {
    Unfold(h, d);
    forall q | q in Required(c) && t !in Stamps(h + [d], q)
      ensures Open(h + [d], q, t) && !Passed(h + [d], q, t)
    {
      assert d.port != q;
      assert Stamps(h + [d], q) == Stamps(h, q) && BoundsOf(h + [d], q) == BoundsOf(h, q) &&
        ClosedBy(h + [d]) == ClosedBy(h);
      assert Open(h, q, t) && !Passed(h, q, t);
    }
  }

  lemma DeliverMissing(c: Contract, h: History, q: Port, t: Timestamp)
    requires Disciplined(c, h) && IsRange(t) && q in Required(c) && t !in Stamps(h, q)
    requires OpenFor(c, h, t) && NonePassed(c, h, t)
    ensures
      var h' := h + [Delivery(q, Packet(NoEvent, t, 0))];
      Disciplined(c, h') && t in Stamps(h', q) && OpenFor(c, h', t) && NonePassed(c, h', t)
  {
    var d := Delivery(q, Packet(NoEvent, t, 0));
    Unfold(h, d);
    assert Open(h, q, t) && !Passed(h, q, t);
    StillOpen(c, h, d, t);
  }

  lemma HistoryGrowsBy(h: History, d: Delivery)
    ensures forall p :: Stamps(h, p) <= Stamps(h + [d], p)
  {
    Unfold(h, d);
  }

  /** Deliver `t` on every port of `todo` that lacks it. */
  lemma {:induction false} CompleteWith(c: Contract, h: History, t: Timestamp, todo: set<Port>)
    requires Required(c) != {} && Disciplined(c, h) && IsRange(t) && todo <= Required(c)
    requires OpenFor(c, h, t) && NonePassed(c, h, t)
    requires forall q :: q in Required(c) && q !in todo ==> t in Stamps(h, q)
    ensures CanMatch(c, h, t)
    decreases todo
  {
    if todo == {} {
      MatchesNow(c, h, t);
    } else {
      var q :| q in todo;
      if t in Stamps(h, q) {
        CompleteWith(c, h, t, todo - {q});
      } else {
        var d := Delivery(q, Packet(NoEvent, t, 0));
        DeliverMissing(c, h, q, t);
        HistoryGrowsBy(h, d);
        CompleteWith(c, h + [d], t, todo - {q});
        MatchesLater(c, h, d, t);
      }
    }
  }

  lemma MatchesNow(c: Contract, h: History, t: int)
    requires Required(c) != {} && Disciplined(c, h) && forall q :: q in Required(c) ==> t in Stamps(h, q)
    ensures CanMatch(c, h, t)
  {
    IntersectionMeaning(c, h, t);
    assert h + [] == h;
  }

  lemma MatchesLater(c: Contract, h: History, d: Delivery, t: int)
    requires Required(c) != {} && CanMatch(c, h + [d], t)
    ensures CanMatch(c, h, t)
  {
    var ext: History :| Disciplined(c, h + [d] + ext) && t in Intersection(c, h + [d] + ext);
    assert h + [d] + ext == h + ([d] + ext);
  }

  // ---------------------------------------------------------------------------
  // Why streams must ascend strictly
  // ---------------------------------------------------------------------------

  lemma NothingToPrune(c: Contract, st: JoinState)
    requires st.closed == {} && st.bounds == map[]
    ensures Prune(c, st) == st
  {
    assert Prune(c, st).pending == st.pending;
  }

  /** A quiet join that buffers at most timestamp `t`, on ports `p` and `q`. */
  ghost predicate HoldsOnly(st: JoinState, p: Port, q: Port, t: Timestamp) {
    st.closed == {} && st.bounds == map[] && st.pending.Keys <= {(p, t), (q, t)}
  }

  lemma TwoPortWaits(c: Contract, st: JoinState, p: Port, q: Port, x: Packet)
    requires p != q && Required(c) == {p, q} && HoldsOnly(st, p, q, x.ts)
    requires !x.IsControl() && IsRange(x.ts) && (q, x.ts) !in st.pending
    ensures
      var (st', out) := Deliver(c, st, Delivery(p, x));
      HoldsOnly(st', p, q, x.ts) && st'.pending == map[(p, x.ts) := x] && out == Waiting
  {
    var recorded := Record(st, Delivery(p, x));
    NothingToPrune(c, recorded);
    assert !Ready(c, recorded, x.ts);
    assert ReadyOn(c, recorded, p) == {};
    assert recorded.pending == map[(p, x.ts) := x];
  }

  lemma TwoPortFires(c: Contract, st: JoinState, p: Port, q: Port, x: Packet)
    requires p != q && Required(c) == {p, q} && HoldsOnly(st, p, q, x.ts)
    requires !x.IsControl() && IsRange(x.ts) && (q, x.ts) in st.pending
    ensures
      var (st', out) := Deliver(c, st, Delivery(p, x));
      && HoldsOnly(st', p, q, x.ts) && st'.pending == map[]
      && out.InvokeData? && out.ts == x.ts && p in out.inputs && q in out.inputs
      && out.inputs[p] == x && out.inputs[q] == st.pending[(q, x.ts)]
  {
    var recorded := Record(st, Delivery(p, x));
    NothingToPrune(c, recorded);
    RequiredAreDeclared(c);
    assert (p, x.ts) in recorded.pending;
    assert Ready(c, recorded, x.ts);
    assert ReadyOn(c, recorded, p) == {x.ts as int};
    assert Remove(c, recorded, x.ts).pending == map[];
  }

  ghost predicate Steps(c: Contract, before: JoinState, d: Delivery, after: JoinState, out: Outcome) {
    Deliver(c, before, d) == (after, out)
  }

  lemma Waits(c: Contract, p: Port, q: Port, st: JoinState, x: Packet) returns (st': JoinState)
    requires p != q && Required(c) == {p, q} && HoldsOnly(st, p, q, x.ts)
    requires !x.IsControl() && IsRange(x.ts) && (q, x.ts) !in st.pending
    ensures Steps(c, st, Delivery(p, x), st', Waiting)
    ensures HoldsOnly(st', p, q, x.ts) && HoldsOnly(st', q, p, x.ts) && st'.pending == map[(p, x.ts) := x]
  {
    TwoPortWaits(c, st, p, q, x);
    st' := Deliver(c, st, Delivery(p, x)).0;
  }

  lemma Fires(c: Contract, p: Port, q: Port, st: JoinState, x: Packet) returns (st': JoinState, out: Outcome)
    requires p != q && Required(c) == {p, q} && HoldsOnly(st, p, q, x.ts)
    requires !x.IsControl() && IsRange(x.ts) && (q, x.ts) in st.pending
    ensures Steps(c, st, Delivery(p, x), st', out)
    ensures HoldsOnly(st', q, p, x.ts) && st'.pending == map[]
    ensures out.InvokeData? && out.ts == x.ts && p in out.inputs && q in out.inputs
    ensures out.inputs[p] == x && out.inputs[q] == st.pending[(q, x.ts)]
  {
    TwoPortFires(c, st, p, q, x);
    st' := Deliver(c, st, Delivery(p, x)).0;
    out := Deliver(c, st, Delivery(p, x)).1;
  }

  /**
    Edges accept a repeated timestamp, but a repeat overwrites what is buffered: from the
    initial state the streams `x, y` on one port and `z` on the other hand out `y` with `z`
    or `x` with `z`, depending on how they interleave.
    */
  lemma RepeatedStampsAreOrderSensitive(c: Contract, p: Port, q: Port, x: Packet, y: Packet, z: Packet)
      returns (s1: JoinState, s2: JoinState, s3: JoinState, late: Outcome, t2: JoinState, t3: JoinState, early: Outcome)
    requires p != q && Required(c) == {p, q} && IsRange(x.ts) && x.ts == y.ts == z.ts && x != y
    requires !x.IsControl() && !y.IsControl() && !z.IsControl()
    ensures Steps(c, INITIAL, Delivery(p, x), s1, Waiting)
    ensures Steps(c, s1, Delivery(p, y), s2, Waiting) && Steps(c, s2, Delivery(q, z), s3, late)
    ensures Steps(c, s1, Delivery(q, z), t2, early) && Steps(c, t2, Delivery(p, y), t3, Waiting)
    ensures late.InvokeData? && p in late.inputs && late.inputs[p] == y
    ensures early.InvokeData? && p in early.inputs && early.inputs[p] == x && early.inputs != late.inputs
  {
    s1 := Waits(c, p, q, INITIAL, x);
    s2 := Waits(c, p, q, s1, y);
    s3, late := Fires(c, q, p, s2, z);
    t2, early := Fires(c, q, p, s1, z);
    t3 := Waits(c, p, q, t2, y);
  }
}
