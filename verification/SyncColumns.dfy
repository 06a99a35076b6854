/**
  The sync join one timestamp at a time. For every history, disciplined or not, what the join buffers of a timestamp
  on the required ports depends on that timestamp's own deliveries, the bounds and the closed ports alone.
  */
module SyncColumns {
  import opened Packets
  import opened Sequences
  import opened SyncJoin
  import opened SyncJoinRuns

  type Column = map<Port, Packet>

  predicate Hits(c: Contract, d: Delivery, t: int) {
    IsDatum(d) && d.packet.ts == t && d.port in Required(c)
  }

  /** Some required port lacks the timestamp and is past it, by end-of-stream or bound. */
  ghost predicate Hopeless(c: Contract, h: History, t: int, col: Column) {
    exists q :: q in Required(c) && q !in col && !Open(h, q, t)
  }

  predicate Full(c: Contract, col: Column) {
    Required(c) <= col.Keys
  }

  function Put(c: Contract, col: Column, d: Delivery, t: int): Column {
    if Hits(c, d, t) then col[d.port := d.packet] else col
  }

  /** The packets of the required ports waiting for a timestamp to be completed. */
  ghost function ColumnAfter(c: Contract, h: History, t: int): Column
    decreases |h|, 1
  {
    if h == [] then map[]
    else
      var col := Recorded(c, h, t);
      if Hopeless(c, h, t, col) || Full(c, col) then map[] else col
  }

  /** The column between recording the last delivery and settling it. */
  ghost function Recorded(c: Contract, h: History, t: int): Column
    requires h != []
    decreases |h|, 0
  {
    Put(c, ColumnAfter(c, Front(h), t), Final(h), t)
  }

  /** The last delivery completes its timestamp. */
  ghost predicate FiresNow(c: Contract, h: History) {
    && h != []
    && Hits(c, Final(h), Final(h).packet.ts)
    && Full(c, Recorded(c, h, Final(h).packet.ts))
  }

  ghost function Fired(c: Contract, h: History): seq<Matched> {
    if FiresNow(c, h) then [Matched(Final(h).packet.ts, Recorded(c, h, Final(h).packet.ts))] else []
  }

  // ---------------------------------------------------------------------------
  // Columns are what the join buffers
  // ---------------------------------------------------------------------------

  ghost function ColumnOf(c: Contract, st: JoinState, t: Timestamp): Column {
    map q | q in Required(c) && (q, t) in st.pending :: st.pending[(q, t)]
  }

  ghost predicate Follows(h: History, st: JoinState) {
    Tracks(h, st) && BoundsHighest(h, st)
  }

  ghost predicate Mirrors(c: Contract, h: History, st: JoinState) {
    && Follows(h, st)
    && (forall k :: k in st.pending ==> IsRange(k.1))
    && (forall t: Timestamp :: IsRange(t) ==> ColumnOf(c, st, t) == ColumnAfter(c, h, t))
  }

  lemma ExhaustedIsNotOpen(h: History, st: JoinState, q: Port, t: Timestamp)
    requires Follows(h, st) && IsRange(t)
    ensures Exhausted(st, q, t) <==> !Open(h, q, t)
  {
  }

  /** A settled column is neither complete nor hopeless. */
  lemma ColumnIsSettled(c: Contract, h: History, t: int)
    requires Required(c) != {}
    ensures !Full(c, ColumnAfter(c, h, t))
    ensures ColumnAfter(c, h, t) == map[] || !Hopeless(c, h, t, ColumnAfter(c, h, t))
  {
    var p := Anchor(c);
  }

  lemma PruneColumn(c: Contract, h: History, st: JoinState, t: Timestamp)
    requires Follows(h, st) && IsRange(t)
    ensures ColumnOf(c, Prune(c, st), t) == if Hopeless(c, h, t, ColumnOf(c, st, t)) then map[] else ColumnOf(c, st, t)
  {
    var col := ColumnOf(c, st, t);
    assert Impossible(c, st, t) <==> Hopeless(c, h, t, col) by {
      forall q
        ensures Exhausted(st, q, t) <==> !Open(h, q, t)
      {
        ExhaustedIsNotOpen(h, st, q, t);
      }
    }
  }

  lemma ReadyIsFull(c: Contract, st: JoinState, t: Timestamp)
    ensures Ready(c, st, t) <==> Full(c, ColumnOf(c, st, t))
  {
  }

  /** What one delivery adds to what a history says. */
  lemma HistoryStep(h: History, d: Delivery)
    ensures ClosedBy(h + [d]) == ClosedBy(h) + if d.packet.event == EndOfStream then {d.port} else {}
    ensures forall p :: BoundsOf(h + [d], p) ==
              BoundsOf(h, p) + if d.port == p && d.packet.event == TimestampBound then {d.packet.ts as int} else {}
    ensures forall p ::
      Stamps(h + [d], p) == Stamps(h, p) + if d.port == p && IsDatum(d) then {d.packet.ts as int} else {}
  {
    Unfold(h, d);
  }

  lemma FollowsBound(h: History, d: Delivery, st: JoinState)
    requires Follows(h, st) && d.packet.event == TimestampBound
    ensures
      var rejected := d.port in st.bounds && d.packet.ts < st.bounds[d.port];
      Follows(h + [d], if rejected then st else st.(bounds := st.bounds[d.port := d.packet.ts]))
  {
    HistoryStep(h, d);
  }

  lemma FollowsRecord(h: History, d: Delivery, st: JoinState)
    requires Follows(h, st) && d.packet.event != TimestampBound
    ensures Follows(h + [d], Record(st, d))
  {
    HistoryStep(h, d);
  }

  /** Pruning settles a recorded column that is not complete. */
  lemma SettledColumn(c: Contract, h: History, st: JoinState, t: Timestamp)
    requires h != [] && Follows(h, st) && IsRange(t)
    requires ColumnOf(c, st, t) == Recorded(c, h, t) && !Full(c, Recorded(c, h, t))
    ensures ColumnOf(c, Prune(c, st), t) == ColumnAfter(c, h, t)
  {
    PruneColumn(c, h, st, t);
  }

  lemma RecordsNothing(c: Contract, h: History, d: Delivery, t: int)
    requires Required(c) != {} && !Hits(c, d, t)
    ensures Recorded(c, h + [d], t) == ColumnAfter(c, h, t) && !Full(c, Recorded(c, h + [d], t))
  {
    Unfold(h, d);
    ColumnIsSettled(c, h, t);
  }

  lemma AcceptedBoundMirrors(c: Contract, h: History, d: Delivery, st: JoinState, bounded: JoinState)
    requires Required(c) != {} && Mirrors(c, h, st) && d.packet.event == TimestampBound
    requires Follows(h + [d], bounded) && bounded.pending == st.pending
    ensures Mirrors(c, h + [d], Prune(c, bounded))
  {
    forall t: Timestamp | IsRange(t)
      ensures ColumnOf(c, Prune(c, bounded), t) == ColumnAfter(c, h + [d], t)
    {
      RecordsNothing(c, h, d, t);
      assert ColumnOf(c, bounded, t) == ColumnOf(c, st, t);
      SettledColumn(c, h + [d], bounded, t);
    }
  }

  lemma RejectedBoundMirrors(c: Contract, h: History, d: Delivery, st: JoinState)
    requires Required(c) != {} && Mirrors(c, h, st) && d.packet.event == TimestampBound && Follows(h + [d], st)
    requires d.port in st.bounds && d.packet.ts < st.bounds[d.port]
    ensures Mirrors(c, h + [d], st)
  {
    forall t: Timestamp | IsRange(t)
      ensures ColumnAfter(c, h, t) == ColumnAfter(c, h + [d], t)
    {
      RecordsNothing(c, h, d, t);
      ColumnIsSettled(c, h, t);
      forall q
        ensures Open(h + [d], q, t) <==> Open(h, q, t)
      {
        RejectedStaysOpen(h, d, st, q, t);
      }
    }
  }

  /** A bound settles every column again. */
  lemma BoundMirrors(c: Contract, h: History, d: Delivery, st: JoinState)
    requires Required(c) != {} && Mirrors(c, h, st) && d.packet.event == TimestampBound
    ensures Mirrors(c, h + [d], Deliver(c, st, d).0)
  {
    FollowsBound(h, d, st);
    if d.port in st.bounds && d.packet.ts < st.bounds[d.port] {
      RejectedBoundMirrors(c, h, d, st);
    } else {
      AcceptedBoundMirrors(c, h, d, st, st.(bounds := st.bounds[d.port := d.packet.ts]));
    }
  }

  lemma RejectedStaysOpen(h: History, d: Delivery, st: JoinState, q: Port, t: int)
    requires Follows(h, st) && d.packet.event == TimestampBound && d.port in st.bounds
    requires d.packet.ts < st.bounds[d.port]
    ensures Open(h + [d], q, t) <==> Open(h, q, t)
  {
    HistoryStep(h, d);
    assert st.bounds[d.port] as int in BoundsOf(h, d.port);
  }

  /** An end-of-stream settles every column again; data settles its own. */
  lemma RecordColumn(c: Contract, h: History, d: Delivery, st: JoinState, t: Timestamp)
    requires Required(c) != {} && Mirrors(c, h, st) && IsRange(t)
    requires d.packet.event == EndOfStream || IsDatum(d)
    ensures ColumnOf(c, Record(st, d), t) == Recorded(c, h + [d], t)
  {
    Unfold(h, d);
  }

  /** Before anything is handed out, every column is recorded and pruned. */
  lemma PrunedColumn(c: Contract, h: History, d: Delivery, st: JoinState, t: Timestamp)
    requires Required(c) != {} && Mirrors(c, h, st) && IsRange(t)
    requires d.packet.event == EndOfStream || IsDatum(d)
    ensures
      var col := Recorded(c, h + [d], t);
      ColumnOf(c, Prune(c, Record(st, d)), t) == if Hopeless(c, h + [d], t, col) then map[] else col
  {
    RecordColumn(c, h, d, st, t);
    FollowsRecord(h, d, st);
    PruneColumn(c, h + [d], Record(st, d), t);
  }

  /** Only the timestamp that was just delivered on a required port can be ready. */
  lemma ReadyExactlyWhenFull(c: Contract, h: History, d: Delivery, st: JoinState)
    requires Required(c) != {} && Mirrors(c, h, st) && (d.packet.event == EndOfStream || IsDatum(d))
    ensures ReadyOn(c, Prune(c, Record(st, d)), d.port) == if FiresNow(c, h + [d]) then {d.packet.ts as int} else {}
  {
    var pruned := Prune(c, Record(st, d));
    Unfold(h, d);
    forall k | k in pruned.pending
      ensures Ready(c, pruned, k.1) <==> FiresNow(c, h + [d]) && k.1 == d.packet.ts
    {
      PrunedColumn(c, h, d, st, k.1);
      ReadyIsFull(c, pruned, k.1);
      ColumnIsSettled(c, h, k.1);
    }
    if FiresNow(c, h + [d]) {
      PrunedColumn(c, h, d, st, d.packet.ts);
      assert d.port in ColumnOf(c, pruned, d.packet.ts);
      assert (d.port, d.packet.ts) in pruned.pending;
    }
  }

  lemma DatumColumn(c: Contract, h: History, d: Delivery, st: JoinState, t: Timestamp)
    requires Required(c) != {} && Mirrors(c, h, st) && (d.packet.event == EndOfStream || IsDatum(d)) && IsRange(t)
    ensures ColumnOf(c, Dispatch(c, Prune(c, Record(st, d)), d.port).0, t) == ColumnAfter(c, h + [d], t)
  {
    Unfold(h, d);
    ReadyExactlyWhenFull(c, h, d, st);
    PrunedColumn(c, h, d, st, t);
    ColumnIsSettled(c, h, t);
    DispatchColumn(c, Prune(c, Record(st, d)), d, t);
  }

  lemma DatumFires(c: Contract, h: History, d: Delivery, st: JoinState)
    requires Required(c) != {} && Mirrors(c, h, st) && (d.packet.event == EndOfStream || IsDatum(d))
    ensures
      var out := Dispatch(c, Prune(c, Record(st, d)), d.port).1;
      && (out.InvokeData? <==> FiresNow(c, h + [d]))
      && (out.InvokeData? ==> out.ts == d.packet.ts && RequiredInputs(c, out.inputs) == Recorded(c, h + [d], out.ts))
  {
    var pruned := Prune(c, Record(st, d));
    Unfold(h, d);
    ReadyExactlyWhenFull(c, h, d, st);
    if FiresNow(c, h + [d]) {
      PrunedColumn(c, h, d, st, d.packet.ts);
      GatherIsColumn(c, pruned, d.packet.ts);
      assert Least({d.packet.ts as int}) == d.packet.ts;
    }
  }

  ghost function RequiredInputs(c: Contract, inputs: PacketSet): Column {
    map q | q in Required(c) && q in inputs :: inputs[q]
  }

  lemma DatumFollows(c: Contract, h: History, d: Delivery, st: JoinState)
    requires Follows(h, st) && (d.packet.event == EndOfStream || IsDatum(d))
    ensures Follows(h + [d], Dispatch(c, Prune(c, Record(st, d)), d.port).0)
  {
    FollowsRecord(h, d, st);
    DispatchFields(c, Prune(c, Record(st, d)), d.port);
  }

  lemma DatumInRange(c: Contract, d: Delivery, st: JoinState)
    requires (forall k :: k in st.pending ==> IsRange(k.1)) && (d.packet.event == EndOfStream || IsDatum(d))
    ensures forall k :: k in Dispatch(c, Prune(c, Record(st, d)), d.port).0.pending ==> IsRange(k.1)
  {
    DispatchShrinks(c, Prune(c, Record(st, d)), d.port);
  }

  lemma DatumMirrors(c: Contract, h: History, d: Delivery, st: JoinState)
    requires Required(c) != {} && Mirrors(c, h, st) && (d.packet.event == EndOfStream || IsDatum(d))
    ensures Mirrors(c, h + [d], Dispatch(c, Prune(c, Record(st, d)), d.port).0)
  {
    DatumFollows(c, h, d, st);
    DatumInRange(c, d, st);
    forall t: Timestamp | IsRange(t)
      ensures ColumnOf(c, Dispatch(c, Prune(c, Record(st, d)), d.port).0, t) == ColumnAfter(c, h + [d], t)
    {
      DatumColumn(c, h, d, st, t);
    }
  }

  lemma DispatchShrinks(c: Contract, st: JoinState, port: Port)
    ensures forall k :: k in Dispatch(c, st, port).0.pending ==> k in st.pending
  {
  }

  lemma DispatchColumn(c: Contract, st: JoinState, d: Delivery, t: Timestamp)
    requires ReadyOn(c, st, d.port) <= {d.packet.ts as int}
    ensures
      var after := Dispatch(c, st, d.port).0;
      ColumnOf(c, after, t) == if ReadyOn(c, st, d.port) != {} && t == d.packet.ts then map[] else ColumnOf(c, st, t)
  {
    var ready := ReadyOn(c, st, d.port);
    RequiredAreDeclared(c);
    if ready != {} {
      assert Least(ready) == d.packet.ts as int;
    }
  }

  lemma GatherIsColumn(c: Contract, st: JoinState, t: Timestamp)
    ensures RequiredInputs(c, Gather(c, st, t)) == ColumnOf(c, st, t)
  {
    RequiredAreDeclared(c);
  }

  lemma RejectedMirrors(c: Contract, h: History, d: Delivery, st: JoinState)
    requires Required(c) != {} && Mirrors(c, h, st) && !d.packet.IsControl() && !IsRange(d.packet.ts)
    ensures Mirrors(c, h + [d], st) && !FiresNow(c, h + [d])
  {
    Unfold(h, d);
    HistoryStep(h, d);
    forall t: Timestamp | IsRange(t)
      ensures ColumnAfter(c, h + [d], t) == ColumnAfter(c, h, t)
    {
      ColumnIsSettled(c, h, t);
      assert forall q :: Open(h + [d], q, t) <==> Open(h, q, t);
    }
  }

  lemma StartMirrors(c: Contract)
    requires Required(c) != {}
    ensures Mirrors(c, [], INITIAL)
  {
  }

  lemma StateStep(c: Contract, h: History, d: Delivery)
    ensures StateAfter(c, h + [d]) == Deliver(c, StateAfter(c, h), d).0
  {
    Unfold(h, d);
  }

  lemma NextMirrors(c: Contract, h: History, d: Delivery)
    requires Required(c) != {} && Mirrors(c, h, StateAfter(c, h))
    ensures Mirrors(c, h + [d], StateAfter(c, h + [d]))
  {
    DeliverMirrors(c, h, d, StateAfter(c, h));
    StateStep(c, h, d);
  }

  /** For every history the join buffers its columns. */
  lemma {:induction false} JoinMirrorsColumns(c: Contract, h: History)
    requires Required(c) != {}
    ensures Mirrors(c, h, StateAfter(c, h))
  {
    if h == [] {
      StartMirrors(c);
    } else {
      assert h == Front(h) + [Final(h)];
      JoinMirrorsColumns(c, Front(h));
      NextMirrors(c, Front(h), Final(h));
    }
  }

  lemma DeliverMirrors(c: Contract, h: History, d: Delivery, st: JoinState)
    requires Required(c) != {} && Mirrors(c, h, st)
    ensures Mirrors(c, h + [d], Deliver(c, st, d).0)
    ensures Deliver(c, st, d).1.InvokeData? <==> FiresNow(c, h + [d])
  {
    if d.packet.event == TimestampBound {
      Unfold(h, d);
      BoundMirrors(c, h, d, st);
    } else if d.packet.event != EndOfStream && !IsRange(d.packet.ts) {
      RejectedMirrors(c, h, d, st);
    } else {
      DatumMirrors(c, h, d, st);
      DatumFires(c, h, d, st);
    }
  }

  /** For every history the join hands out its completed columns, in the order they are completed. */
  lemma HandsOutColumns(c: Contract, h: History)
    requires Required(c) != {} && h != []
    ensures HandedOut(c, h) == HandedOut(c, Front(h)) + Fired(c, h)
  {
    var before, d := Front(h), Final(h);
    assert h == before + [d];
    JoinMirrorsColumns(c, before);
    DeliverMirrors(c, before, d, StateAfter(c, before));
    if FiresNow(c, h) {
      DatumFires(c, before, d, StateAfter(c, before));
    } else {
      assert HandedOut(c, before) + [] == HandedOut(c, before);
    }
  }

  // ---------------------------------------------------------------------------
  // What a column holds
  // ---------------------------------------------------------------------------

  /** The latest packet of every required port in it. */
  ghost predicate Latest(c: Contract, h: History, t: int, col: Column) {
    forall q :: q in col ==> q in Required(c) && t in Stamps(h, q) && col[q] == PacketAt(h, q, t)
  }

  lemma {:induction false} ColumnIsLatest(c: Contract, h: History, t: int)
    ensures Latest(c, h, t, ColumnAfter(c, h, t))
    ensures h != [] ==> Latest(c, h, t, Recorded(c, h, t))
  {
    if h != [] {
      ColumnIsLatest(c, Front(h), t);
    }
  }

  /** A timestamp is completed only when every required port has delivered it. */
  lemma FiringIsMatched(c: Contract, h: History)
    requires Required(c) != {} && FiresNow(c, h)
    ensures Final(h).packet.ts as int in Intersection(c, h)
  {
    var t := Final(h).packet.ts as int;
    ColumnIsLatest(c, h, t);
    forall q | q in Required(c)
      ensures t in Stamps(h, q)
    {
      assert q in Recorded(c, h, t);
    }
    IntersectionMeaning(c, h, t);
  }

  lemma IntersectionGrows(c: Contract, h: History, ext: History)
    requires Required(c) != {}
    ensures Intersection(c, h) <= Intersection(c, h + ext)
  {
    forall t | t in Intersection(c, h)
      ensures t in Intersection(c, h + ext)
    {
      forall q | q in Required(c)
        ensures t in Stamps(h + ext, q)
      {
        IntersectionMeaning(c, h, t);
        HistoryGrows(h, ext, q);
      }
      IntersectionMeaning(c, h + ext, t);
    }
  }
}
