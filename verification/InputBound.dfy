/**
  A bound set on a graph input reaches the node at once, ahead of the packets still queued for that port. The
  deliveries the node then sees are out of discipline; this is when what it is handed is the same all the same.
  */
module InputBounds {
  import opened Packets
  import opened Sequences
  import opened SyncJoin
  import opened SyncJoinRuns
  import opened SyncColumns

  /** Setting the bound first changes what the history says about bounds on that port, and nothing else. */
  lemma {:induction false} BoundAhead(h: History, d: Delivery, queued: History, p: Port)
    requires d.packet.event == TimestampBound
    ensures Stamps(h + [d] + queued, p) == Stamps(h + queued, p)
    ensures ClosedBy(h + [d] + queued) == ClosedBy(h + queued)
    ensures BoundsOf(h + [d] + queued, p) == BoundsOf(h + queued, p) + if d.port == p then {d.packet.ts as int} else {}
    decreases |queued|
  {
    if queued == [] {
      assert h + [d] + queued == h + [d] && h + queued == h;
      assert Front(h + [d]) == h;
    } else {
      var rest := Front(queued);
      BoundAhead(h, d, rest, p);
      assert Front(h + [d] + queued) == h + [d] + rest;
      assert Front(h + queued) == h + rest;
    }
  }

  lemma OpenAhead(h: History, d: Delivery, r: History, q: Port, t: int)
    requires d.packet.event == TimestampBound
    ensures Open(h + [d] + r, q, t) <==> Open(h + r, q, t) && (q == d.port ==> d.packet.ts <= t)
  {
    BoundAhead(h, d, r, q);
  }

  /** The two histories and what is left of them without their last delivery. */
  lemma Unroll(h: History, d: Delivery, r: History)
    requires r != []
    ensures Front(h + [d] + r) == h + [d] + Front(r) && Final(h + [d] + r) == Final(r)
    ensures Front(h + r) == h + Front(r) && Final(h + r) == Final(r)
  {
  }

  ghost predicate SameColumn(c: Contract, h: History, d: Delivery, r: History, t: int) {
    ColumnAfter(c, h + [d] + r, t) == ColumnAfter(c, h + r, t)
  }

  /** A column that does not depend on the bound stays the same from one delivery to the next. */
  lemma SameColumnStep(c: Contract, h: History, d: Delivery, r: History, t: int)
    requires d.packet.event == TimestampBound && r != [] && SameColumn(c, h, d, Front(r), t)
    requires d.packet.ts <= t || d.port !in Required(c) || d.port in Recorded(c, h + r, t)
    ensures SameColumn(c, h, d, r, t)
  {
    Unroll(h, d, r);
    forall q
      ensures Open(h + [d] + r, q, t) <==> Open(h + r, q, t) && (q == d.port ==> d.packet.ts <= t)
    {
      OpenAhead(h, d, r, q, t);
    }
  }

  /** The bound itself leaves a column alone unless it makes it hopeless. */
  lemma SameColumnAtBound(c: Contract, h: History, d: Delivery, t: int)
    requires Required(c) != {} && d.packet.event == TimestampBound
    requires d.packet.ts <= t || d.port !in Required(c) || d.port in ColumnAfter(c, h, t) ||
      ColumnAfter(c, h, t) == map[]
    ensures SameColumn(c, h, d, [], t)
  {
    assert h + [d] + [] == h + [d] && h + [] == h;
    Unfold(h, d);
    ColumnIsSettled(c, h, t);
    forall q
      ensures Open(h + [d], q, t) <==> Open(h, q, t) && (q == d.port ==> d.packet.ts <= t)
    {
      OpenAhead(h, d, [], q, t);
    }
  }

  lemma {:induction false} UnaffectedColumn(c: Contract, h: History, d: Delivery, r: History, t: int)
    requires Required(c) != {} && d.packet.event == TimestampBound && (d.packet.ts <= t || d.port !in Required(c))
    ensures SameColumn(c, h, d, r, t)
    decreases |r|
  {
    if r == [] {
      SameColumnAtBound(c, h, d, t);
    } else {
      UnaffectedColumn(c, h, d, Front(r), t);
      SameColumnStep(c, h, d, r, t);
    }
  }

  /** Until the bounded port delivers a timestamp below the bound, the join keeps nothing of it. */
  lemma AwaitedColumn(c: Contract, h: History, d: Delivery, r: History, t: int)
    requires d.packet.event == TimestampBound && d.port in Required(c) && t < d.packet.ts && t !in Stamps(h + r, d.port)
    ensures ColumnAfter(c, h + [d] + r, t) == map[]
  {
    var b := h + [d] + r;
    BoundAhead(h, d, r, d.port);
    ColumnIsLatest(c, b, t);
    OpenAhead(h, d, r, d.port, t);
    assert d.port !in Recorded(c, b, t) && !Open(b, d.port, t);
  }

  /** In a disciplined history a delivered timestamp that a port no longer holds is held by none. */
  lemma GoneForGood(c: Contract, g: History, p: Port, t: Timestamp)
    requires Required(c) != {} && Disciplined(c, g) && p in Required(c) && IsRange(t) && t in Stamps(g, p)
    requires p !in ColumnAfter(c, g, t)
    ensures ColumnAfter(c, g, t) == map[]
  {
    var st := StateAfter(c, g);
    RunKeepsInv(c, g);
    RunKeepsPruned(c, g);
    JoinMirrorsColumns(c, g);
    assert (p, t) !in st.pending;
    if t !in Intersection(c, g) {
      assert Dead(c, g, st, t);
      var q :| q in Required(c) && t !in Stamps(g, q) && Exhausted(st, q, t);
      assert (q, t) !in st.pending;
      assert Impossible(c, st, t);
    }
    assert forall q :: q in Required(c) ==> (q, t) !in st.pending;
    assert ColumnOf(c, st, t) == map[];
  }

  /** Once the bounded port has delivered a timestamp, equal columns stay equal. */
  lemma DeliveredColumnStep(c: Contract, h: History, d: Delivery, r: History, t: Timestamp)
    requires Required(c) != {} && Disciplined(c, h + r) && IsRange(t)
    requires d.packet.event == TimestampBound && d.port in Required(c) && t in Stamps(h + r, d.port)
    requires r != [] && SameColumn(c, h, d, Front(r), t)
    ensures SameColumn(c, h, d, r, t)
  {
    Unroll(h, d, r);
    if d.port in Recorded(c, h + r, t) || d.packet.ts <= t {
      SameColumnStep(c, h, d, r, t);
    } else {
      GoneForGood(c, h + r, d.port, t);
      OpenAhead(h, d, r, d.port, t);
      assert Recorded(c, h + [d] + r, t) == Recorded(c, h + r, t);
      assert Hopeless(c, h + [d] + r, t, Recorded(c, h + [d] + r, t));
    }
  }

  /** The bounded port delivers `t` as delivery `i`, when required port `q` has already delivered it. */
  ghost predicate Behind(c: Contract, h: History, d: Delivery, r: History, t: int, i: int, q: Port) {
    && 0 <= i < |r| && r[i].port == d.port && IsDatum(r[i]) && r[i].packet.ts == t
    && q in Required(c) && q != d.port && t in Stamps(h + r[..i], q)
  }

  ghost predicate Late(c: Contract, h: History, d: Delivery, r: History, t: int) {
    exists i, q :: Behind(c, h, d, r, t, i, q)
  }

  lemma LateStays(c: Contract, h: History, d: Delivery, r: History, n: nat, t: int)
    requires n <= |r| && Late(c, h, d, r[..n], t)
    ensures Late(c, h, d, r, t)
  {
    var i, q :| Behind(c, h, d, r[..n], t, i, q);
    assert r[..n][..i] == r[..i];
    assert Behind(c, h, d, r, t, i, q);
  }

  /** The first time the bounded port delivers a timestamp, with no one before it, both columns were empty. */
  lemma FirstToDeliver(c: Contract, h: History, d: Delivery, r: History, t: int)
    requires d.packet.event == TimestampBound && d.port in Required(c) && t < d.packet.ts && !Late(c, h, d, r, t)
    requires r != [] && Hits(c, Final(r), t) && Final(r).port == d.port && t !in Stamps(h + Front(r), d.port)
    ensures SameColumn(c, h, d, Front(r), t)
  {
    AwaitedColumn(c, h, d, Front(r), t);
    ColumnIsLatest(c, h + Front(r), t);
    var col := ColumnAfter(c, h + Front(r), t);
    forall q | q in col
      ensures false
    {
      assert r[..|r| - 1] == Front(r);
      assert Behind(c, h, d, r, t, |r| - 1, q);
    }
    assert col == map[];
  }

  lemma DisciplinedPrefix(c: Contract, h: History, r: History)
    requires r != [] && Disciplined(c, h + r)
    ensures Disciplined(c, h + Front(r)) && InDiscipline(c, h + Front(r), Final(r))
  {
    assert Front(h + r) == h + Front(r) && Final(h + r) == Final(r);
  }

  /** A timestamp the bounded port delivered ahead of the others is buffered as if the bound had waited. */
  lemma {:induction false} KeptColumn(c: Contract, h: History, d: Delivery, r: History, t: Timestamp)
    requires Required(c) != {} && Disciplined(c, h + r) && IsRange(t)
    requires d.packet.event == TimestampBound && d.port in Required(c) && t < d.packet.ts
    requires t in Stamps(h + r, d.port) && !Late(c, h, d, r, t)
    ensures SameColumn(c, h, d, r, t)
    decreases |r|
  {
    if r == [] {
      assert h + r == h;
      if d.port !in ColumnAfter(c, h, t) {
        GoneForGood(c, h, d.port, t);
      }
      SameColumnAtBound(c, h, d, t);
    } else {
      Unroll(h, d, r);
      DisciplinedPrefix(c, h, r);
      if t in Stamps(h + Front(r), d.port) {
        assert !Late(c, h, d, Front(r), t) by {
          if Late(c, h, d, Front(r), t) { LateStays(c, h, d, r, |r| - 1, t); }
        }
        KeptColumn(c, h, d, Front(r), t);
      } else {
        FirstToDeliver(c, h, d, r, t);
      }
      DeliveredColumnStep(c, h, d, r, t);
    }
  }

  /**
    A timestamp common to all required ports that the bounded port delivers below its bound and behind another port.
    */
  ghost predicate Overtaken(c: Contract, h: History, d: Delivery, rest: History)
    requires Required(c) != {}
  {
    exists t: int :: t < d.packet.ts && d.port in Required(c) && t in Intersection(c, h + rest) &&
      Late(c, h, d, rest, t)
  }

  lemma SameIntersection(c: Contract, h: History, d: Delivery, r: History, t: int)
    requires Required(c) != {} && d.packet.event == TimestampBound
    ensures t in Intersection(c, h + [d] + r) <==> t in Intersection(c, h + r)
  {
    forall q
      ensures Stamps(h + [d] + r, q) == Stamps(h + r, q)
    {
      BoundAhead(h, d, r, q);
    }
    IntersectionMeaning(c, h + [d] + r, t);
    IntersectionMeaning(c, h + r, t);
  }

  /** A delivery that completes nothing in the end completes nothing with the bound ahead either. */
  lemma NeitherFires(c: Contract, h: History, d: Delivery, r: History)
    requires Required(c) != {} && d.packet.event == TimestampBound && r != []
    requires Final(r).packet.ts as int !in Intersection(c, h + r)
    ensures !FiresNow(c, h + [d] + r) && !FiresNow(c, h + r)
  {
    Unroll(h, d, r);
    SameIntersection(c, h, d, r, Final(r).packet.ts);
    if FiresNow(c, h + [d] + r) { FiringIsMatched(c, h + [d] + r); }
    if FiresNow(c, h + r) { FiringIsMatched(c, h + r); }
  }

  lemma SameFired(c: Contract, h: History, d: Delivery, r: History)
    requires d.packet.event == TimestampBound && r != [] && SameColumn(c, h, d, Front(r), Final(r).packet.ts)
    ensures Fired(c, h + [d] + r) == Fired(c, h + r)
  {
    Unroll(h, d, r);
  }

  lemma NotOvertakenFires(c: Contract, h: History, d: Delivery, rest: History, n: nat)
    requires 0 < n <= |rest| && Required(c) != {} && !Overtaken(c, h, d, rest)
    requires Disciplined(c, h + rest[..n]) && d.packet.event == TimestampBound
    ensures Fired(c, h + [d] + rest[..n]) == Fired(c, h + rest[..n])
  {
    var r := rest[..n];
    var t := Final(r).packet.ts;
    Unroll(h, d, r);
    DisciplinedPrefix(c, h, r);
    if d.packet.ts <= t || d.port !in Required(c) {
      UnaffectedColumn(c, h, d, Front(r), t);
      SameFired(c, h, d, r);
    } else if t as int !in Intersection(c, h + r) || !IsDatum(Final(r)) {
      if IsDatum(Final(r)) { NeitherFires(c, h, d, r); }
    } else {
      MatchedIsNotLate(c, h, d, rest, n, t);
      if t in Stamps(h + Front(r), d.port) {
        assert !Late(c, h, d, Front(r), t) by {
          if Late(c, h, d, Front(r), t) { LateStays(c, h, d, r, n - 1, t); }
        }
        KeptColumn(c, h, d, Front(r), t);
      } else {
        IntersectionMeaning(c, h + r, t);
        FirstToDeliver(c, h, d, r, t);
      }
      SameFired(c, h, d, r);
    }
  }

  lemma MatchedIsNotLate(c: Contract, h: History, d: Delivery, rest: History, n: nat, t: int)
    requires Required(c) != {} && n <= |rest| && !Overtaken(c, h, d, rest)
    requires t < d.packet.ts && d.port in Required(c) && t in Intersection(c, h + rest[..n])
    ensures !Late(c, h, d, rest[..n], t)
  {
    if Late(c, h, d, rest[..n], t) {
      LateStays(c, h, d, rest, n, t);
      assert h + rest[..n] + rest[n..] == h + rest;
      IntersectionGrows(c, h + rest[..n], rest[n..]);
    }
  }

  lemma {:induction false} NotOvertakenHandsOut(c: Contract, h: History, d: Delivery, rest: History, n: nat)
    requires n <= |rest| && Required(c) != {} && !Overtaken(c, h, d, rest)
    requires Disciplined(c, h + rest[..n]) && d.packet.event == TimestampBound
    ensures HandedOut(c, h + [d] + rest[..n]) == HandedOut(c, h + rest[..n])
    decreases n
  {
    var r := rest[..n];
    if n == 0 {
      assert h + [d] + r == h + [d] && h + r == h && Front(h + [d]) == h && Final(h + [d]) == d;
      HandsOutColumns(c, h + [d]);
    } else {
      Unroll(h, d, r);
      DisciplinedPrefix(c, h, r);
      assert Front(r) == rest[..n - 1];
      NotOvertakenHandsOut(c, h, d, rest, n - 1);
      NotOvertakenFires(c, h, d, rest, n);
      HandsOutColumns(c, h + [d] + r);
      HandsOutColumns(c, h + r);
    }
  }

  // ---------------------------------------------------------------------------

  /** A port delivers a timestamp once, so what another port delivered before a late delivery is gone. */
  lemma {:induction false} LostColumn(c: Contract, h: History, d: Delivery, r: History, t: int, i: nat, q: Port)
    requires Disciplined(c, h + r) && d.packet.event == TimestampBound && d.port in Required(c) && t < d.packet.ts
    requires Behind(c, h, d, r, t, i, q)
    ensures q !in ColumnAfter(c, h + [d] + r, t)
    decreases |r|
  {
    Unroll(h, d, r);
    DisciplinedPrefix(c, h, r);
    if i == |r| - 1 {
      assert r[..i] == Front(r);
      AwaitedColumn(c, h, d, Front(r), t);
    } else {
      assert Front(r)[..i] == r[..i] && Front(r)[i] == r[i];
      LostColumn(c, h, d, Front(r), t, i, q);
      DeliveredBefore(h, Front(r), i, q, t);
    }
  }

  lemma DeliveredBefore(h: History, r: History, i: nat, q: Port, t: int)
    requires i <= |r| && t in Stamps(h + r[..i], q)
    ensures t in Stamps(h + r, q)
  {
    assert h + r[..i] + r[i..] == h + r;
    HistoryGrows(h + r[..i], r[i..], q);
  }

  lemma LateNeverFires(c: Contract, h: History, d: Delivery, r: History, t: int, i: nat, q: Port)
    requires Disciplined(c, h + r) && d.packet.event == TimestampBound && d.port in Required(c) && t < d.packet.ts
    requires r != [] && Behind(c, h, d, r, t, i, q)
    ensures !(FiresNow(c, h + [d] + r) && Final(r).packet.ts == t)
  {
    Unroll(h, d, r);
    DisciplinedPrefix(c, h, r);
    if i == |r| - 1 {
      assert r[..i] == Front(r);
      AwaitedColumn(c, h, d, Front(r), t);
    } else {
      assert Front(r)[..i] == r[..i] && Front(r)[i] == r[i];
      LostColumn(c, h, d, Front(r), t, i, q);
      DeliveredBefore(h, Front(r), i, q, t);
    }
    assert q !in Recorded(c, h + [d] + r, t);
  }

  ghost predicate HandsOutAt(out: seq<Matched>, t: int) {
    exists m :: m in out && m.ts == t
  }

  /** The bounded port has not delivered `t`, or did so behind `q`. */
  ghost predicate Doomed(c: Contract, h: History, d: Delivery, r: History, t: int, q: Port) {
    t !in Stamps(h + r, d.port) || exists i :: Behind(c, h, d, r, t, i, q)
  }

  lemma DoomedBefore(c: Contract, h: History, d: Delivery, r: History, t: int, q: Port)
    requires r != [] && Disciplined(c, h + r) && d.port in Required(c) && Doomed(c, h, d, r, t, q)
    ensures Doomed(c, h, d, Front(r), t, q)
  {
    DisciplinedPrefix(c, h, r);
    if t !in Stamps(h + r, d.port) {
      DeliveredEarlier(h, r, d.port, t);
    } else {
      var i :| Behind(c, h, d, r, t, i, q);
      if i < |r| - 1 {
        assert Front(r)[..i] == r[..i] && Front(r)[i] == r[i];
        assert Behind(c, h, d, Front(r), t, i, q);
      }
    }
  }

  lemma DeliveredEarlier(h: History, r: History, p: Port, t: int)
    requires r != []
    ensures t in Stamps(h + Front(r), p) ==> t in Stamps(h + r, p)
  {
    assert Front(h + r) == h + Front(r);
  }

  lemma DoomedNeverFires(c: Contract, h: History, d: Delivery, r: History, t: int, q: Port)
    requires Required(c) != {} && Disciplined(c, h + r) && d.packet.event == TimestampBound && d.port in Required(c)
    requires t < d.packet.ts && r != [] && Doomed(c, h, d, r, t, q)
    ensures !(FiresNow(c, h + [d] + r) && Final(r).packet.ts == t)
  {
    if t !in Stamps(h + r, d.port) {
      EarlyNeverFires(c, h, d, r, t);
    } else {
      var i :| Behind(c, h, d, r, t, i, q);
      LateNeverFires(c, h, d, r, t, i, q);
    }
  }

  lemma {:induction false} DoomedIsNotHandedOut(c: Contract, h: History, d: Delivery, r: History, t: int, q: Port)
    requires Required(c) != {} && Disciplined(c, h + r) && d.packet.event == TimestampBound && d.port in Required(c)
    requires t < d.packet.ts && Doomed(c, h, d, r, t, q)
    ensures !HandsOutAt(HandedOut(c, h + [d] + r), t)
    decreases |r|
  {
    if r == [] {
      assert h + [d] + r == h + [d] && h + r == h;
      NotHandedOutYet(c, h, d, t);
    } else {
      DisciplinedPrefix(c, h, r);
      DoomedBefore(c, h, d, r, t, q);
      DoomedIsNotHandedOut(c, h, d, Front(r), t, q);
      DoomedNeverFires(c, h, d, r, t, q);
      Unroll(h, d, r);
      HandsOutColumns(c, h + [d] + r);
    }
  }

  lemma NotHandedOutYet(c: Contract, h: History, d: Delivery, t: int)
    requires Required(c) != {} && Disciplined(c, h) && d.packet.event == TimestampBound && d.port in Required(c)
    requires t !in Stamps(h, d.port)
    ensures !HandsOutAt(HandedOut(c, h + [d]), t)
  {
    Unfold(h, d);
    HandsOutColumns(c, h + [d]);
    HandedOutIsJoin(c, h);
    IntersectionMeaning(c, h, t);
  }

  lemma EarlyNeverFires(c: Contract, h: History, d: Delivery, r: History, t: int)
    requires Required(c) != {} && d.packet.event == TimestampBound && d.port in Required(c)
    requires r != [] && t !in Stamps(h + r, d.port)
    ensures !(FiresNow(c, h + [d] + r) && Final(r).packet.ts == t)
  {
    if Final(r).packet.ts == t {
      IntersectionMeaning(c, h + r, t);
      NeitherFires(c, h, d, r);
    }
  }

  /**
    A bound applied ahead of the deliveries still queued hands out what waiting for them would have, exactly when no
    common timestamp below it reaches its own port after another required port.
    */
  lemma BoundAheadIsHarmlessIff(c: Contract, h: History, d: Delivery, rest: History)
    requires Required(c) != {} && Disciplined(c, h + rest) && d.packet.event == TimestampBound
    ensures HandedOut(c, h + [d] + rest) == SortedIntersection(c, h + rest) <==> !Overtaken(c, h, d, rest)
  {
    assert rest[..|rest|] == rest;
    JoinRefinesSortedIntersection(c, h + rest);
    if Overtaken(c, h, d, rest) {
      var t: int :| t < d.packet.ts && d.port in Required(c) && t in Intersection(c, h + rest) &&
        Late(c, h, d, rest, t);
      var i, q :| Behind(c, h, d, rest, t, i, q);
      DoomedIsNotHandedOut(c, h, d, rest, t, q);
      HandedOutIsJoin(c, h + rest);
      MatchedIsHandedOut(c, h + rest, t);
    } else {
      NotOvertakenHandsOut(c, h, d, rest, |rest|);
    }
  }

  lemma MatchedIsHandedOut(c: Contract, h: History, t: int)
    requires Required(c) != {} && IsJoinOf(c, h, HandedOut(c, h)) && t in Intersection(c, h)
    ensures HandsOutAt(HandedOut(c, h), t)
  {
    var out := HandedOut(c, h);
    assert t in Elements(StampsOf(out));
    var i :| 0 <= i < |StampsOf(out)| && StampsOf(out)[i] == t;
    assert out[i] in out;
  }

  /** One way a match is lost: both required ports deliver the timestamp and it is never handed out. */
  lemma BoundAheadLosesAMatch(c: Contract, p: Port, q: Port, bound: Packet, x: Packet, z: Packet)
      returns (s1: JoinState, s2: JoinState, s3: JoinState)
    requires p != q && Required(c) == {p, q}
    requires bound.event == TimestampBound && IsRange(bound.ts) && IsRange(x.ts) && x.ts == z.ts < bound.ts
    requires !x.IsControl() && !z.IsControl()
    ensures Steps(c, INITIAL, Delivery(p, bound), s1, Waiting)
    ensures Steps(c, s1, Delivery(q, z), s2, Waiting)
    ensures Steps(c, s2, Delivery(p, x), s3, Waiting)
  {
    s1 := INITIAL.(bounds := map[p := bound.ts]);
    assert Prune(c, s1) == s1;
    assert INITIAL.bounds[p := bound.ts] == map[p := bound.ts];
    PrunedAtOnce(c, p, q, s1, z);
    s2 := s1;
    s3 := Record(s2, Delivery(p, x));
    HeldAlone(c, p, q, s2, x);
  }

  lemma PrunedAtOnce(c: Contract, p: Port, q: Port, st: JoinState, z: Packet)
    requires p != q && Required(c) == {p, q} && IsRange(z.ts) && !z.IsControl()
    requires st.pending == map[] && st.closed == {} && p in st.bounds && IsRange(st.bounds[p]) && st.bounds[p] > z.ts
    ensures Steps(c, st, Delivery(q, z), st, Waiting)
  {
    var recorded := Record(st, Delivery(q, z));
    assert p in Required(c) && (p, z.ts) !in recorded.pending && Exhausted(recorded, p, z.ts);
    assert Impossible(c, recorded, z.ts);
    var pruned := Prune(c, recorded);
    assert pruned.pending == map[];
    assert pruned == st;
    assert ReadyOn(c, st, q) == {};
    assert p in Required(c) && p !in st.closed;
  }

  lemma HeldAlone(c: Contract, p: Port, q: Port, st: JoinState, x: Packet)
    requires p != q && Required(c) == {p, q} && IsRange(x.ts) && !x.IsControl()
    requires st.pending == map[] && st.closed == {} && q !in st.bounds
    ensures Steps(c, st, Delivery(p, x), Record(st, Delivery(p, x)), Waiting)
  {
    var recorded := Record(st, Delivery(p, x));
    assert !Impossible(c, recorded, x.ts);
    assert Prune(c, recorded) == recorded;
    assert q in Required(c) && (q, x.ts) !in recorded.pending;
    assert !Ready(c, recorded, x.ts);
    assert ReadyOn(c, recorded, p) == {};
    assert p in Required(c) && p !in recorded.closed;
  }
}
