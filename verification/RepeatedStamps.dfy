/**
  What a repeated timestamp does to the join. Edges let a port repeat a data timestamp; a repeat overwrites what is
  buffered, or starts a second match. This is exactly when the interleaving of the ports then shows in the result.
  */
module RepeatedStamps {
  import opened Packets
  import opened Sequences
  import opened SyncJoin
  import opened SyncJoinRuns
  import opened SyncColumns

  // ---------------------------------------------------------------------------
  // Streams that may repeat a timestamp
  // ---------------------------------------------------------------------------

  /** What an edge lets through: data after no end-of-stream, at or above every bound and every earlier datum. */
  predicate Admissible(c: Contract, h: History, d: Delivery) {
    d.port in Required(c) && IsDatum(d) ==>
      && d.port !in ClosedBy(h)
      && (forall b: int :: b in BoundsOf(h, d.port) ==> b <= d.packet.ts)
      && (forall t: int :: t in Stamps(h, d.port) ==> t <= d.packet.ts)
  }

  predicate Loose(c: Contract, h: History) {
    h == [] || (Loose(c, Front(h)) && Admissible(c, Front(h), Final(h)))
  }

  /** The same stream on every required port. */
  ghost predicate Interleaves(c: Contract, h0: History, h: History) {
    forall p :: p in Required(c) ==> OnPort(h, p) == OnPort(h0, p)
  }

  predicate Delivers(d: Delivery, p: Port, t: int) {
    d.port == p && IsDatum(d) && d.packet.ts == t
  }

  /** The packets a port has delivered with a timestamp. */
  function PacketsAt(h: History, p: Port, t: int): seq<Packet> {
    if h == [] then []
    else PacketsAt(Front(h), p, t) + if Delivers(Final(h), p, t) then [Final(h).packet] else []
  }

  /** They are all the same. */
  ghost predicate Uniform(h: History, p: Port, t: int) {
    forall x, y :: x in PacketsAt(h, p, t) && y in PacketsAt(h, p, t) ==> x == y
  }

  /** At a common timestamp some required port delivers once, and no required port delivers different packets. */
  ghost predicate CalmAt(c: Contract, h: History, t: int) {
    && (exists p :: p in Required(c) && |PacketsAt(h, p, t)| == 1)
    && (forall p :: p in Required(c) ==> Uniform(h, p, t))
  }

  ghost predicate Calm(c: Contract, h: History)
    requires Required(c) != {}
  {
    forall t :: t in Intersection(c, h) ==> CalmAt(c, h, t)
  }

  lemma {:induction false} LatestIsLast(h: History, p: Port, t: int)
    ensures t in Stamps(h, p) <==> PacketsAt(h, p, t) != []
    ensures t in Stamps(h, p) ==> PacketAt(h, p, t) == Final(PacketsAt(h, p, t))
  {
    if h != [] { LatestIsLast(Front(h), p, t); }
  }

  lemma {:induction false} PacketsConcat(a: History, b: History, p: Port, t: int)
    ensures PacketsAt(a + b, p, t) == PacketsAt(a, p, t) + PacketsAt(b, p, t)
    decreases |b|
  {
    if b == [] {
      assert a + b == a;
    } else {
      assert Front(a + b) == a + Front(b) && Final(a + b) == Final(b);
      PacketsConcat(a, Front(b), p, t);
    }
  }

  // ---------------------------------------------------------------------------
  // Parts of a history, seen from one port
  // ---------------------------------------------------------------------------

  lemma {:induction false} OnPortConcat(a: History, b: History, p: Port)
    ensures OnPort(a + b, p) == OnPort(a, p) + OnPort(b, p)
    decreases |b|
  {
    if b == [] {
      assert a + b == a;
    } else {
      assert Front(a + b) == a + Front(b) && Final(a + b) == Final(b);
      OnPortConcat(a, Front(b), p);
    }
  }

  lemma {:induction false} OnPortIsOnPort(h: History, p: Port)
    ensures OnPort(OnPort(h, p), p) == OnPort(h, p)
    ensures forall i :: 0 <= i < |OnPort(h, p)| ==> OnPort(h, p)[i].port == p
  {
    if h != [] {
      OnPortIsOnPort(Front(h), p);
      if Final(h).port == p {
        Unfold(OnPort(Front(h), p), Final(h));
      }
    }
  }

  /** Counts, closes and bounds of a port are those of its own stream. */
  lemma {:induction false} PortSays(h: History, p: Port, t: int)
    ensures PacketsAt(OnPort(h, p), p, t) == PacketsAt(h, p, t)
    ensures BoundsOf(OnPort(h, p), p) == BoundsOf(h, p)
    ensures p in ClosedBy(OnPort(h, p)) <==> p in ClosedBy(h)
  {
    if h != [] {
      PortSays(Front(h), p, t);
      if Final(h).port == p {
        Unfold(OnPort(Front(h), p), Final(h));
      }
    }
  }

  lemma AdmissibleByPort(c: Contract, h: History, d: Delivery)
    ensures Admissible(c, h, d) <==> Admissible(c, OnPort(h, d.port), d)
  {
    PortSays(h, d.port, 0);
    StampsOnPort(h, d.port);
  }

  /** A history is admissible exactly when every required port's stream is. */
  lemma {:induction false} LooseByPort(c: Contract, h: History)
    ensures Loose(c, h) <==> forall p :: p in Required(c) ==> Loose(c, OnPort(h, p))
  {
    if h != [] {
      var before, d := Front(h), Final(h);
      LooseByPort(c, before);
      AdmissibleByPort(c, before, d);
      Unfold(OnPort(before, d.port), d);
      assert forall p :: p != d.port ==> OnPort(h, p) == OnPort(before, p);
      assert Loose(c, OnPort(h, d.port)) <==>
        Loose(c, OnPort(before, d.port)) && Admissible(c, OnPort(before, d.port), d);
    }
  }

  lemma LooseTransfers(c: Contract, h0: History, h: History)
    requires Loose(c, h0) && Interleaves(c, h0, h)
    ensures Loose(c, h)
  {
    LooseByPort(c, h0);
    LooseByPort(c, h);
  }

  lemma {:induction false} LoosePrefix(c: Contract, a: History, b: History)
    requires Loose(c, a + b)
    ensures Loose(c, a)
    decreases |b|
  {
    if b == [] {
      assert a + b == a;
    } else {
      assert Front(a + b) == a + Front(b);
      LoosePrefix(c, a, Front(b));
    }
  }

  /** A port that still delivers a timestamp has not been closed or bounded past it. */
  lemma {:induction false} OpenUntilDelivered(c: Contract, a: History, b: History, q: Port, t: int)
    requires Loose(c, a + b) && q in Required(c) && t in Stamps(b, q)
    ensures Open(a, q, t)
    decreases |b|
  {
    assert Front(a + b) == a + Front(b) && Final(a + b) == Final(b);
    if Delivers(Final(b), q, t) {
      HistoryGrows(a, Front(b), q);
    } else {
      OpenUntilDelivered(c, a, Front(b), q, t);
    }
  }

  // ---------------------------------------------------------------------------
  // The next match of a timestamp
  // ---------------------------------------------------------------------------

  /** The latest packets the required ports have delivered of a timestamp over a stretch of deliveries. */
  ghost function Since(c: Contract, e: History, t: int): Column {
    map q | q in Required(c) && t in Stamps(e, q) :: PacketAt(e, q, t)
  }

  lemma SinceStep(c: Contract, e: History, t: int)
    requires e != []
    ensures Put(c, Since(c, Front(e), t), Final(e), t) == Since(c, e, t)
  {
  }

  /** From an empty column, and until every required port has delivered it, nothing of a timestamp is given up. */
  lemma {:induction false} ColumnSince(c: Contract, b: History, e: History, later: History, t: int)
    requires Required(c) != {} && Loose(c, b + e + later) && ColumnAfter(c, b, t) == map[]
    requires t in Intersection(c, e + later) && t !in Intersection(c, e)
    ensures ColumnAfter(c, b + e, t) == Since(c, e, t)
    decreases |e|
  {
    if e == [] {
      assert b + e == b;
    } else {
      RecordedSince(c, b, e, later, t);
      var col := Since(c, e, t);
      forall q | q in Required(c) && q !in col
        ensures Open(b + e, q, t)
      {
        IntersectionMeaning(c, e + later, t);
        DeliversLater(e, later, q, t);
        OpenUntilDelivered(c, b + e, later, q, t);
      }
      IntersectionMeaning(c, e, t);
    }
  }

  lemma {:induction false} DeliversLater(e: History, later: History, q: Port, t: int)
    requires t in Stamps(e + later, q) && t !in Stamps(e, q)
    ensures t in Stamps(later, q)
    decreases |later|
  {
    assert later == [] ==> e + later == e;
    if later != [] {
      assert Front(e + later) == e + Front(later) && Final(e + later) == Final(later);
      if t in Stamps(e + Front(later), q) {
        DeliversLater(e, Front(later), q, t);
      }
    }
  }

  lemma ShiftOne(b: History, e: History, later: History)
    requires e != []
    ensures Front(b + e) == b + Front(e) && Final(b + e) == Final(e)
    ensures b + e + later == b + Front(e) + ([Final(e)] + later) && e + later == Front(e) + ([Final(e)] + later)
  {
  }

  lemma {:induction false} RecordedSince(c: Contract, b: History, e: History, later: History, t: int)
    requires Required(c) != {} && Loose(c, b + e + later) && ColumnAfter(c, b, t) == map[]
    requires e != [] && t in Intersection(c, e + later) && t !in Intersection(c, Front(e))
    ensures Recorded(c, b + e, t) == Since(c, e, t)
    decreases |e|, 0
  {
    var f, x := Front(e), Final(e);
    ShiftOne(b, e, later);
    ColumnSince(c, b, f, [x] + later, t);
    SinceStep(c, e, t);
  }

  /** The delivery that completes it hands out the latest packets and leaves an empty column. */
  lemma CompletionFires(c: Contract, b: History, e: History, t: int)
    requires Required(c) != {} && Loose(c, b + e) && ColumnAfter(c, b, t) == map[]
    requires e != [] && t in Intersection(c, e) && t !in Intersection(c, Front(e))
    ensures FiresNow(c, b + e) && Fired(c, b + e) == [Matched(t, Since(c, e, t))]
    ensures ColumnAfter(c, b + e, t) == map[]
  {
    assert b + e + [] == b + e && e + [] == e;
    RecordedSince(c, b, e, [], t);
    IntersectionMeaning(c, e, t);
    assert Final(b + e) == Final(e);
    assert e == Front(e) + [Final(e)];
    IntersectionStep(c, Front(e), Final(e));
    assert Full(c, Since(c, e, t));
  }

  // ---------------------------------------------------------------------------
  // Calm streams give the sorted intersection
  // ---------------------------------------------------------------------------

  lemma CalmPrefix(c: Contract, h: History)
    requires Required(c) != {} && h != [] && Calm(c, h)
    ensures Calm(c, Front(h))
  {
    var before := Front(h);
    assert h == before + [Final(h)];
    IntersectionStep(c, before, Final(h));
    forall t | t in Intersection(c, before)
      ensures CalmAt(c, before, t)
    {
      assert CalmAt(c, h, t);
      var p :| p in Required(c) && |PacketsAt(h, p, t)| == 1;
      LatestIsLast(before, p, t);
      IntersectionMeaning(c, before, t);
      forall q | q in Required(c)
        ensures Uniform(before, q, t)
      {
        UniformPrefix(h, q, t);
      }
    }
  }

  lemma UniformPrefix(h: History, p: Port, t: int)
    requires h != [] && Uniform(h, p, t)
    ensures Uniform(Front(h), p, t)
  {
    assert forall x :: x in PacketsAt(Front(h), p, t) ==> x in PacketsAt(h, p, t);
  }

  /** A port that delivers a timestamp once is not waiting for it once it has been matched. */
  lemma {:induction false} OnceIsGone(c: Contract, h: History, p: Port, t: int)
    requires Required(c) != {} && Loose(c, h) && p in Required(c) && t in Intersection(c, h)
    requires |PacketsAt(h, p, t)| == 1
    ensures p !in ColumnAfter(c, h, t)
  {
    IntersectionMeaning(c, h, t);
    if t in Intersection(c, Front(h)) {
      IntersectionMeaning(c, Front(h), t);
      LatestIsLast(Front(h), p, t);
      OnceIsGone(c, Front(h), p, t);
    } else {
      assert [] + h == h;
      CompletionFires(c, [], h, t);
    }
  }

  lemma FirstFires(c: Contract, h: History, t: int)
    requires Required(c) != {} && h != [] && Loose(c, h) && t in Intersection(c, h) && t !in Intersection(c, Front(h))
    ensures Fired(c, h) == [MatchedAt(c, h, t)]
  {
    assert [] + h == h;
    CompletionFires(c, [], h, t);
    SinceStart(c, h, t);
  }

  lemma SinceStart(c: Contract, h: History, t: int)
    requires Required(c) != {} && t in Intersection(c, h)
    ensures Matched(t, Since(c, h, t)) == MatchedAt(c, h, t)
  {
    IntersectionMeaning(c, h, t);
    assert Since(c, h, t) == MatchedAt(c, h, t).inputs;
  }

  lemma UnmatchedDoesNotFire(c: Contract, h: History)
    requires Required(c) != {} && h != [] && Final(h).packet.ts as int !in Intersection(c, h)
    ensures Fired(c, h) == []
  {
    if FiresNow(c, h) { FiringIsMatched(c, h); }
  }

  /** On calm streams a delivery is handed out exactly when it completes its timestamp for the first time. */
  lemma CalmFiresOnce(c: Contract, h: History)
    requires Required(c) != {} && h != [] && Loose(c, h) && Calm(c, h)
    ensures
      var t := Final(h).packet.ts as int;
      if t in Intersection(c, h) && t !in Intersection(c, Front(h)) then Fired(c, h) == [MatchedAt(c, h, t)]
      else Fired(c, h) == []
  {
    var t := Final(h).packet.ts as int;
    if t !in Intersection(c, h) {
      UnmatchedDoesNotFire(c, h);
    } else if t !in Intersection(c, Front(h)) {
      FirstFires(c, h, t);
    } else {
      RepeatDoesNotFire(c, h, t);
    }
  }

  lemma RepeatDoesNotFire(c: Contract, h: History, t: int)
    requires Required(c) != {} && h != [] && Loose(c, h) && Calm(c, h)
    requires t == Final(h).packet.ts && t in Intersection(c, h) && t in Intersection(c, Front(h))
    ensures !FiresNow(c, h)
  {
    assert CalmAt(c, h, t);
    var p :| p in Required(c) && |PacketsAt(h, p, t)| == 1;
    IntersectionMeaning(c, Front(h), t);
    LatestIsLast(Front(h), p, t);
    OnceIsGone(c, Front(h), p, t);
    assert p !in Recorded(c, h, t);
  }

  lemma CalmPersists(c: Contract, h: History, t: int)
    requires Required(c) != {} && h != [] && Calm(c, h) && t in Intersection(c, Front(h))
    ensures t in Intersection(c, h) && MatchedAt(c, h, t) == MatchedAt(c, Front(h), t)
  {
    var before, d := Front(h), Final(h);
    assert h == before + [d];
    IntersectionStep(c, before, d);
    IntersectionMeaning(c, before, t);
    forall q | q in Required(c)
      ensures PacketAt(h, q, t) == PacketAt(before, q, t)
    {
      LatestIsLast(before, q, t);
      LatestIsLast(h, q, t);
      assert CalmAt(c, h, t) && Uniform(h, q, t);
      assert Final(PacketsAt(before, q, t)) in PacketsAt(h, q, t) && Final(PacketsAt(h, q, t)) in PacketsAt(h, q, t);
    }
  }

  lemma LooseAscends(c: Contract, h: History)
    requires Required(c) != {} && h != [] && Loose(c, h)
    requires
      var t := Final(h).packet.ts as int;
      t in Intersection(c, h) && t !in Intersection(c, Front(h))
    ensures forall u :: u in Intersection(c, Front(h)) ==> u < Final(h).packet.ts
  {
    var before, d := Front(h), Final(h);
    assert h == before + [d];
    IntersectionStep(c, before, d);
    forall u | u in Intersection(c, before)
      ensures u < d.packet.ts
    {
      IntersectionMeaning(c, before, u);
      assert u in Stamps(before, d.port);
    }
  }

  lemma {:induction false} CalmHandsOutJoin(c: Contract, h: History)
    requires Required(c) != {} && Loose(c, h) && Calm(c, h)
    ensures IsJoinOf(c, h, HandedOut(c, h))
  {
    if h == [] {
      assert Stamps(h, Anchor(c)) == {};
    } else {
      CalmPrefix(c, h);
      CalmHandsOutJoin(c, Front(h));
      HandsOutColumns(c, h);
      CalmFiresOnce(c, h);
      JoinStep(c, h, HandedOut(c, Front(h)));
    }
  }

  lemma JoinStep(c: Contract, h: History, out: seq<Matched>)
    requires Required(c) != {} && h != [] && Loose(c, h) && Calm(c, h) && IsJoinOf(c, Front(h), out)
    ensures
      var t := Final(h).packet.ts as int;
      if t in Intersection(c, h) && t !in Intersection(c, Front(h)) then IsJoinOf(c, h, out + [MatchedAt(c, h, t)])
      else IsJoinOf(c, h, out + [])
  {
    var before := Front(h);
    var t := Final(h).packet.ts as int;
    CalmKeepsMatched(c, h);
    if t in Intersection(c, h) && t !in Intersection(c, before) {
      LooseAscends(c, h);
      JoinGrows(c, h, out, MatchedAt(c, h, t));
    } else {
      JoinStays(c, h, out);
    }
  }

  lemma CalmKeepsMatched(c: Contract, h: History)
    requires Required(c) != {} && h != [] && Loose(c, h) && Calm(c, h)
    ensures Intersection(c, Front(h)) <= Intersection(c, h)
    ensures Intersection(c, h) <= Intersection(c, Front(h)) + {Final(h).packet.ts as int}
    ensures forall u :: u in Intersection(c, Front(h)) ==> MatchedAt(c, h, u) == MatchedAt(c, Front(h), u)
  {
    assert h == Front(h) + [Final(h)];
    IntersectionStep(c, Front(h), Final(h));
    forall u | u in Intersection(c, Front(h))
      ensures MatchedAt(c, h, u) == MatchedAt(c, Front(h), u)
    {
      CalmPersists(c, h, u);
    }
  }

  lemma JoinStays(c: Contract, h: History, out: seq<Matched>)
    requires Required(c) != {} && h != [] && IsJoinOf(c, Front(h), out)
    requires Intersection(c, h) == Intersection(c, Front(h))
    requires forall u :: u in Intersection(c, Front(h)) ==> MatchedAt(c, h, u) == MatchedAt(c, Front(h), u)
    ensures IsJoinOf(c, h, out + [])
  {
    assert out + [] == out;
  }

  lemma JoinGrows(c: Contract, h: History, out: seq<Matched>, m: Matched)
    requires Required(c) != {} && h != [] && IsJoinOf(c, Front(h), out) && m.ts in Intersection(c, h)
    requires m == MatchedAt(c, h, m.ts)
    requires Intersection(c, h) == Intersection(c, Front(h)) + {m.ts}
    requires forall u :: u in Intersection(c, Front(h)) ==> u < m.ts && MatchedAt(c, h, u) == MatchedAt(c, Front(h), u)
    ensures IsJoinOf(c, h, out + [m])
  {
    assert StampsOf(out + [m]) == StampsOf(out) + [m.ts];
    assert forall i :: 0 <= i < |out| ==> StampsOf(out)[i] in Elements(StampsOf(out));
    assert forall x :: x in StampsOf(out) + [m.ts] <==> x in Elements(StampsOf(out)) || x == m.ts;
  }

  lemma CalmRefines(c: Contract, h: History)
    requires Required(c) != {} && Loose(c, h) && Calm(c, h)
    ensures HandedOut(c, h) == SortedIntersection(c, h)
  {
    CalmHandsOutJoin(c, h);
    JoinIsReference(c, h, HandedOut(c, h));
  }

  // ---------------------------------------------------------------------------
  // Matches of one timestamp
  // ---------------------------------------------------------------------------

  ghost function MatchesAt(out: seq<Matched>, t: int): seq<Matched> {
    if out == [] then []
    else MatchesAt(Front(out), t) + if Final(out).ts == t then [Final(out)] else []
  }

  lemma MatchesAppend(out: seq<Matched>, m: Matched, t: int)
    ensures MatchesAt(out + [m], t) == MatchesAt(out, t) + if m.ts == t then [m] else []
  {
    assert Front(out + [m]) == out;
  }

  /** What one more delivery adds to the matches of a timestamp. */
  lemma MatchesStep(c: Contract, h: History, t: int)
    requires Required(c) != {} && h != []
    ensures
      var fires := FiresNow(c, h) && Final(h).packet.ts == t;
      MatchesAt(HandedOut(c, h), t) == MatchesAt(HandedOut(c, Front(h)), t) + if fires then Fired(c, h) else []
  {
    HandsOutColumns(c, h);
    var out := HandedOut(c, Front(h));
    assert out + [] == out;
    if FiresNow(c, h) {
      MatchesAppend(out, Fired(c, h)[0], t);
    }
  }

  lemma {:induction false} NoMatchYet(c: Contract, h: History, t: int)
    requires Required(c) != {} && t !in Intersection(c, h)
    ensures MatchesAt(HandedOut(c, h), t) == []
  {
    if h != [] {
      assert h == Front(h) + [Final(h)];
      IntersectionStep(c, Front(h), Final(h));
      NoMatchYet(c, Front(h), t);
      MatchesStep(c, h, t);
      if FiresNow(c, h) { FiringIsMatched(c, h); }
    }
  }

  lemma {:induction false} MatchesGrow(c: Contract, a: History, b: History, t: int)
    requires Required(c) != {}
    ensures MatchesAt(HandedOut(c, a), t) <= MatchesAt(HandedOut(c, a + b), t)
    decreases |b|
  {
    if b == [] {
      assert a + b == a;
    } else {
      assert Front(a + b) == a + Front(b);
      MatchesGrow(c, a, Front(b), t);
      MatchesStep(c, a + b, t);
    }
  }

  /** A stretch after which a timestamp is complete for the first time. */
  ghost predicate Completes(c: Contract, h: History, n: nat, t: int)
    requires Required(c) != {}
  {
    0 < n <= |h| && t in Intersection(c, h[..n]) && t !in Intersection(c, h[..n - 1])
  }

  lemma {:induction false} FirstCompletion(c: Contract, h: History, t: int) returns (n: nat)
    requires Required(c) != {} && t in Intersection(c, h)
    ensures Completes(c, h, n, t)
  {
    IntersectionMeaning(c, h, t);
    assert h[..|h|] == h && h[..|h| - 1] == Front(h);
    if t in Intersection(c, Front(h)) {
      n := FirstCompletion(c, Front(h), t);
      assert Front(h)[..n] == h[..n] && Front(h)[..n - 1] == h[..n - 1];
    } else {
      n := |h|;
    }
  }

  /** The first match of a timestamp carries the latest packets at its first completion. */
  lemma FirstMatch(c: Contract, h: History, n: nat, t: int)
    requires Required(c) != {} && Loose(c, h) && Completes(c, h, n, t)
    ensures
      var matches := MatchesAt(HandedOut(c, h), t);
      matches != [] && matches[0] == Matched(t, Since(c, h[..n], t))
  {
    var e := h[..n];
    assert h == e + h[n..] && [] + e == e && Front(e) == h[..n - 1];
    LoosePrefix(c, e, h[n..]);
    CompletionFires(c, [], e, t);
    NoMatchYet(c, Front(e), t);
    MatchesStep(c, e, t);
    assert Fired(c, e)[0].ts == t;
    MatchesGrow(c, e, h[n..], t);
  }

  lemma CompletionMatches(c: Contract, b: History, f: History, t: int)
    requires Required(c) != {} && Loose(c, b + f) && ColumnAfter(c, b, t) == map[]
    requires f != [] && t in Intersection(c, f) && t !in Intersection(c, Front(f))
    ensures |MatchesAt(HandedOut(c, b + f), t)| > |MatchesAt(HandedOut(c, b), t)|
  {
    assert Front(b + f) == b + Front(f) && Final(b + f) == Final(f);
    CompletionFires(c, b, f, t);
    assert Fired(c, b + f)[0].ts == t;
    MatchesStep(c, b + f, t);
    MatchesGrow(c, b, Front(f), t);
  }

  /** From an empty column, one more delivery on every required port gives one more match. */
  lemma OneMoreMatch(c: Contract, b: History, e: History, t: int)
    requires Required(c) != {} && Loose(c, b + e) && ColumnAfter(c, b, t) == map[] && t in Intersection(c, e)
    ensures |MatchesAt(HandedOut(c, b + e), t)| > |MatchesAt(HandedOut(c, b), t)|
  {
    var n := FirstCompletion(c, e, t);
    assert b + e == b + e[..n] + e[n..] && Front(e[..n]) == e[..n - 1];
    LoosePrefix(c, b + e[..n], e[n..]);
    CompletionMatches(c, b, e[..n], t);
    MatchesGrow(c, b + e[..n], e[n..], t);
  }

  /** Without a port's further deliveries there is at most the one match its held packet still allows. */
  lemma {:induction false} NoMoreThanHeld(c: Contract, a: History, b: History, p: Port, t: int)
    requires Required(c) != {} && p in Required(c) && PacketsAt(b, p, t) == []
    ensures |MatchesAt(HandedOut(c, a + b), t)| + (if p in ColumnAfter(c, a + b, t) then 1 else 0) <=
      |MatchesAt(HandedOut(c, a), t)| + 1
    decreases |b|
  {
    if b == [] {
      assert a + b == a;
    } else {
      assert Front(a + b) == a + Front(b) && Final(a + b) == Final(b);
      NoMoreThanHeld(c, a, Front(b), p, t);
      MatchesStep(c, a + b, t);
      assert !Delivers(Final(b), p, t);
      assert p in Recorded(c, a + b, t) ==> p in ColumnAfter(c, a + Front(b), t);
    }
  }

  // ---------------------------------------------------------------------------
  // Two interleavings that tell different packets apart
  // ---------------------------------------------------------------------------

  /** A history without the deliveries of one port. */
  function Without(h: History, p: Port): History {
    if h == [] then []
    else Without(Front(h), p) + if Final(h).port == p then [] else [Final(h)]
  }

  lemma {:induction false} WithoutOnPort(h: History, p: Port, q: Port)
    ensures OnPort(Without(h, p), q) == if q == p then [] else OnPort(h, q)
  {
    if h != [] {
      WithoutOnPort(Front(h), p, q);
      var rest := Without(Front(h), p);
      if Final(h).port == p {
        assert rest + [] == rest;
      } else {
        Unfold(rest, Final(h));
      }
    }
  }

  lemma {:induction false} OneStream(s: History, p: Port, q: Port)
    requires forall i :: 0 <= i < |s| ==> s[i].port == p
    ensures OnPort(s, q) == if q == p then s else []
  {
    if s != [] {
      OneStream(Front(s), p, q);
      assert s == Front(s) + [Final(s)];
    }
  }

  /** The first `k` deliveries of a port, everything of the others, then the rest of the port. */
  function Sandwich(h: History, p: Port, k: nat): History
    requires k <= |OnPort(h, p)|
  {
    OnPort(h, p)[..k] + Without(h, p) + OnPort(h, p)[k..]
  }

  lemma ThreeParts(a: History, b: History, d: History, q: Port)
    ensures OnPort(a + b + d, q) == OnPort(a, q) + OnPort(b, q) + OnPort(d, q)
  {
    OnPortConcat(a + b, d, q);
    OnPortConcat(a, b, q);
  }

  lemma SandwichOnPort(h: History, p: Port, k: nat, q: Port)
    requires k <= |OnPort(h, p)|
    ensures OnPort(Sandwich(h, p, k), q) == OnPort(h, q)
  {
    var s, w := OnPort(h, p), Without(h, p);
    OnPortIsOnPort(h, p);
    var a, b := s[..k], s[k..];
    ThreeParts(a, w, b, q);
    WithoutOnPort(h, p, q);
    OneStream(a, p, q);
    OneStream(b, p, q);
    Rejoins(s, OnPort(h, q), k);
  }

  lemma Rejoins(s: History, r: History, k: nat)
    requires k <= |s|
    ensures s[..k] + [] + s[k..] == s
    ensures [] + r + [] == r
  {
  }

  lemma SandwichInterleaves(c: Contract, h: History, p: Port, k: nat)
    requires k <= |OnPort(h, p)|
    ensures Interleaves(c, h, Sandwich(h, p, k))
  {
    forall q
      ensures OnPort(Sandwich(h, p, k), q) == OnPort(h, q)
    {
      SandwichOnPort(h, p, k, q);
    }
  }

  /** Interleavings agree on what every required port has delivered. */
  lemma InterleavesAgree(c: Contract, h0: History, h: History, p: Port, t: int)
    requires Interleaves(c, h0, h) && p in Required(c)
    ensures PacketsAt(h, p, t) == PacketsAt(h0, p, t) && Stamps(h, p) == Stamps(h0, p)
  {
    PortSays(h, p, t);
    PortSays(h0, p, t);
    StampsOnPort(h, p);
    StampsOnPort(h0, p);
  }

  lemma InterleavesIntersection(c: Contract, h0: History, h: History, t: int)
    requires Required(c) != {} && Interleaves(c, h0, h)
    ensures t in Intersection(c, h) <==> t in Intersection(c, h0)
  {
    forall p | p in Required(c)
      ensures Stamps(h, p) == Stamps(h0, p)
    {
      InterleavesAgree(c, h0, h, p, t);
    }
    IntersectionMeaning(c, h, t);
    IntersectionMeaning(c, h0, t);
  }

  lemma {:induction false} AbsentPort(s: History, p: Port, t: int)
    requires forall i :: 0 <= i < |s| ==> s[i].port != p
    ensures PacketsAt(s, p, t) == []
  {
    if s != [] { AbsentPort(Front(s), p, t); }
  }

  lemma {:induction false} WithoutHasNone(h: History, p: Port)
    ensures forall i :: 0 <= i < |Without(h, p)| ==> Without(h, p)[i].port != p
  {
    if h != [] { WithoutHasNone(Front(h), p); }
  }

  /** Everything of the other ports, after any part of port `p`, makes a timestamp complete but for `p`. */
  lemma OthersComplete(c: Contract, h: History, p: Port, k: nat, t: int, q: Port)
    requires Required(c) != {} && k <= |OnPort(h, p)| && t in Intersection(c, h) && q in Required(c) && q != p
    ensures t in Stamps(OnPort(h, p)[..k] + Without(h, p), q)
  {
    var s := OnPort(h, p)[..k];
    PacketsConcat(s, Without(h, p), q, t);
    WithoutOnPort(h, p, q);
    PortSays(Without(h, p), q, t);
    PortSays(h, q, t);
    IntersectionMeaning(c, h, t);
    LatestIsLast(h, q, t);
    LatestIsLast(s + Without(h, p), q, t);
  }

  lemma NotBeforeOthers(c: Contract, h: History, p: Port, k: nat, n: nat, t: int, q: Port)
    requires Required(c) != {} && n <= k <= |OnPort(h, p)| && q in Required(c) && q != p
    ensures Sandwich(h, p, k)[..n] == OnPort(h, p)[..n] && t !in Intersection(c, OnPort(h, p)[..n])
  {
    var s := OnPort(h, p);
    OnPortIsOnPort(h, p);
    assert Sandwich(h, p, k)[..n] == s[..n];
    AbsentPort(s[..n], q, t);
    LatestIsLast(s[..n], q, t);
    IntersectionMeaning(c, s[..n], t);
  }

  /** With port `p` ahead, the first match comes while the others deliver. */
  lemma FirstMatchAmongOthers(c: Contract, h: History, p: Port, k: nat, n: nat, t: int, q: Port)
    requires Required(c) != {} && k <= |OnPort(h, p)| && t in Intersection(c, h) && p in Required(c)
    requires q in Required(c) && q != p
    requires PacketsAt(OnPort(h, p)[..k], p, t) != [] && Completes(c, Sandwich(h, p, k), n, t)
    ensures k < n <= k + |Without(h, p)|
  {
    var s, w, e := OnPort(h, p)[..k], Without(h, p), Sandwich(h, p, k);
    if n <= k {
      NotBeforeOthers(c, h, p, k, n, t, q);
    }
    if n > k + |w| {
      CompleteWithOthers(c, h, p, k, t);
      assert e[..n - 1] == s + w + e[k + |w|..n - 1];
      IntersectionGrows(c, s + w, e[k + |w|..n - 1]);
    }
  }

  /** That match carries the last packet the port delivered before the others came. */
  lemma AheadPackets(c: Contract, h: History, p: Port, k: nat, n: nat, t: int, q: Port)
    requires Required(c) != {} && k <= |OnPort(h, p)| && t in Intersection(c, h) && p in Required(c)
    requires q in Required(c) && q != p
    requires PacketsAt(OnPort(h, p)[..k], p, t) != [] && Completes(c, Sandwich(h, p, k), n, t)
    ensures PacketsAt(Sandwich(h, p, k)[..n], p, t) == PacketsAt(OnPort(h, p)[..k], p, t)
  {
    var s, w := OnPort(h, p)[..k], Without(h, p);
    FirstMatchAmongOthers(c, h, p, k, n, t, q);
    assert Sandwich(h, p, k)[..n] == s + w[..n - k];
    PacketsConcat(s, w[..n - k], p, t);
    WithoutHasNone(h, p);
    AbsentPort(w[..n - k], p, t);
  }

  lemma CompleteWithOthers(c: Contract, h: History, p: Port, k: nat, t: int)
    requires Required(c) != {} && k <= |OnPort(h, p)| && t in Intersection(c, h) && p in Required(c)
    requires PacketsAt(OnPort(h, p)[..k], p, t) != []
    ensures t in Intersection(c, OnPort(h, p)[..k] + Without(h, p))
  {
    var s, w := OnPort(h, p)[..k], Without(h, p);
    forall q | q in Required(c)
      ensures t in Stamps(s + w, q)
    {
      if q == p {
        LatestIsLast(s, p, t);
        HistoryGrows(s, w, p);
      } else {
        OthersComplete(c, h, p, k, t, q);
      }
    }
    IntersectionMeaning(c, s + w, t);
  }

  lemma PacketsPrefix(e: History, n: nat, p: Port, t: int)
    requires n <= |e|
    ensures PacketsAt(e[..n], p, t) <= PacketsAt(e, p, t)
    ensures n > 0 ==> |PacketsAt(e[..n], p, t)| <= |PacketsAt(e[..n - 1], p, t)| + 1
  {
    assert e == e[..n] + e[n..];
    PacketsConcat(e[..n], e[n..], p, t);
    assert n > 0 ==> Front(e[..n]) == e[..n - 1];
  }

  /** With port `p` behind, the first match carries its first packet. */
  lemma BehindPackets(c: Contract, h: History, p: Port, n: nat, t: int)
    requires Required(c) != {} && t in Intersection(c, h) && p in Required(c) && Completes(c, Sandwich(h, p, 0), n, t)
    ensures PacketsAt(h, p, t) != [] && PacketsAt(Sandwich(h, p, 0)[..n], p, t) == PacketsAt(h, p, t)[..1]
  {
    var e := Sandwich(h, p, 0);
    SandwichInterleaves(c, h, p, 0);
    InterleavesAgree(c, h, e, p, t);
    NothingBefore(c, h, p, n, t);
    PacketsPrefix(e, n, p, t);
    IntersectionMeaning(c, e[..n], t);
    LatestIsLast(e[..n], p, t);
  }

  /** Past the other ports' packets, the first packet of the last port makes the timestamp common. */
  lemma CommonOnceReached(c: Contract, h: History, p: Port, n: nat, t: int)
    requires Required(c) != {} && t in Intersection(c, h) && p in Required(c)
    requires |Without(h, p)| <= n <= |Sandwich(h, p, 0)| && PacketsAt(Sandwich(h, p, 0)[..n], p, t) != []
    ensures t in Intersection(c, Sandwich(h, p, 0)[..n])
  {
    var w, e := Without(h, p), Sandwich(h, p, 0);
    assert OnPort(h, p)[..0] + w == w && e == w + OnPort(h, p);
    LatestIsLast(e[..n], p, t);
    assert e[..n] == w + e[|w|..n];
    forall q | q in Required(c)
      ensures t in Stamps(e[..n], q)
    {
      if q != p {
        OthersComplete(c, h, p, 0, t, q);
        HistoryGrows(w, e[|w|..n], q);
      }
    }
    IntersectionMeaning(c, e[..n], t);
  }

  lemma NothingBefore(c: Contract, h: History, p: Port, n: nat, t: int)
    requires Required(c) != {} && t in Intersection(c, h) && p in Required(c) && Completes(c, Sandwich(h, p, 0), n, t)
    ensures PacketsAt(Sandwich(h, p, 0)[..n - 1], p, t) == []
  {
    var m := n - 1;
    if m <= |Without(h, p)| {
      NoneAmongOthers(h, p, m, t);
    } else {
      NoneUntilCommon(c, h, p, m, t);
    }
  }

  lemma NoneUntilCommon(c: Contract, h: History, p: Port, m: nat, t: int)
    requires Required(c) != {} && t in Intersection(c, h) && p in Required(c)
    requires |Without(h, p)| <= m <= |Sandwich(h, p, 0)| && t !in Intersection(c, Sandwich(h, p, 0)[..m])
    ensures PacketsAt(Sandwich(h, p, 0)[..m], p, t) == []
  {
    if PacketsAt(Sandwich(h, p, 0)[..m], p, t) != [] {
      CommonOnceReached(c, h, p, m, t);
    }
  }

  lemma NoneAmongOthers(h: History, p: Port, n: nat, t: int)
    requires n <= |Without(h, p)|
    ensures n <= |Sandwich(h, p, 0)| && PacketsAt(Sandwich(h, p, 0)[..n], p, t) == []
  {
    var w := Without(h, p);
    assert OnPort(h, p)[..0] + w == w && Sandwich(h, p, 0)[..n] == w[..n];
    WithoutHasNone(h, p);
    AbsentPort(w[..n], p, t);
  }

  /** A stream can be cut right after any of its packets. */
  lemma {:induction false} CutAfter(s: History, p: Port, t: int, j: nat) returns (k: nat)
    requires j < |PacketsAt(s, p, t)|
    ensures k <= |s| && PacketsAt(s[..k], p, t) == PacketsAt(s, p, t)[..j + 1]
  {
    if j + 1 == |PacketsAt(s, p, t)| {
      k := |s|;
      assert s[..k] == s;
    } else {
      k := CutAfter(Front(s), p, t, j);
      assert Front(s)[..k] == s[..k];
    }
  }

  /** Some interleaving hands out different data. */
  ghost predicate Disagree(c: Contract, h: History) {
    exists h1, h2 :: Interleaves(c, h, h1) && Interleaves(c, h, h2) && HandedOut(c, h1) != HandedOut(c, h2)
  }

  lemma UnequalPacketsShow(c: Contract, h: History, p: Port, t: int, q: Port)
    requires Required(c) != {} && Loose(c, h) && t in Intersection(c, h) && p in Required(c) && q in Required(c)
    requires q != p
    requires !Uniform(h, p, t)
    ensures Disagree(c, h)
  {
    var packets, s := PacketsAt(h, p, t), OnPort(h, p);
    var j := NotTheFirst(packets);
    PortSays(h, p, t);
    var k := CutAfter(s, p, t, j);
    var h1, h2 := Sandwich(h, p, 0), Sandwich(h, p, k);
    var x1 := BehindMatch(c, h, p, t);
    var x2 := AheadMatch(c, h, p, k, t, q);
    assert x2 == packets[j] != packets[0] == x1;
    SandwichInterleaves(c, h, p, 0);
    SandwichInterleaves(c, h, p, k);
  }

  lemma NotTheFirst(packets: seq<Packet>) returns (j: nat)
    requires exists x, y :: x in packets && y in packets && x != y
    ensures j < |packets| && packets[j] != packets[0]
  {
    var x, y :| x in packets && y in packets && x != y;
    var z := if x == packets[0] then y else x;
    j :| 0 <= j < |packets| && packets[j] == z;
  }

  /** What the first match carries for a port. */
  ghost predicate FirstCarries(c: Contract, h: History, p: Port, t: int, x: Packet) {
    var matches := MatchesAt(HandedOut(c, h), t);
    matches != [] && p in matches[0].inputs && matches[0].inputs[p] == x
  }

  lemma FirstCarriesLatest(c: Contract, h: History, n: nat, p: Port, t: int)
    requires Required(c) != {} && Loose(c, h) && Completes(c, h, n, t) && p in Required(c)
    ensures PacketsAt(h[..n], p, t) != [] && FirstCarries(c, h, p, t, Final(PacketsAt(h[..n], p, t)))
  {
    FirstMatch(c, h, n, t);
    IntersectionMeaning(c, h[..n], t);
    LatestIsLast(h[..n], p, t);
  }

  lemma BehindMatch(c: Contract, h: History, p: Port, t: int) returns (x: Packet)
    requires Required(c) != {} && Loose(c, h) && t in Intersection(c, h) && p in Required(c)
    ensures PacketsAt(h, p, t) != [] && x == PacketsAt(h, p, t)[0] && FirstCarries(c, Sandwich(h, p, 0), p, t, x)
  {
    var e := Sandwich(h, p, 0);
    SandwichInterleaves(c, h, p, 0);
    LooseTransfers(c, h, e);
    InterleavesIntersection(c, h, e, t);
    var n := FirstCompletion(c, e, t);
    BehindPackets(c, h, p, n, t);
    FirstCarriesLatest(c, e, n, p, t);
    x := PacketsAt(h, p, t)[0];
    assert Final(PacketsAt(h, p, t)[..1]) == x;
  }

  lemma AheadMatch(c: Contract, h: History, p: Port, k: nat, t: int, q: Port) returns (x: Packet)
    requires Required(c) != {} && Loose(c, h) && t in Intersection(c, h) && p in Required(c) && q in Required(c)
    requires q != p
    requires k <= |OnPort(h, p)| && PacketsAt(OnPort(h, p)[..k], p, t) != []
    ensures x == Final(PacketsAt(OnPort(h, p)[..k], p, t)) && FirstCarries(c, Sandwich(h, p, k), p, t, x)
  {
    var e := Sandwich(h, p, k);
    SandwichInterleaves(c, h, p, k);
    LooseTransfers(c, h, e);
    InterleavesIntersection(c, h, e, t);
    var n := FirstCompletion(c, e, t);
    AheadPackets(c, h, p, k, n, t, q);
    FirstCarriesLatest(c, e, n, p, t);
    x := Final(PacketsAt(OnPort(h, p)[..k], p, t));
  }

  // ---------------------------------------------------------------------------
  // Two interleavings that tell the number of matches apart
  // ---------------------------------------------------------------------------

  /** Every port's deliveries up to and with its first of the timestamp, and the rest. */
  function EarlyPart(h: History, t: int): History {
    if h == [] then []
    else EarlyPart(Front(h), t) + if t in Stamps(Front(h), Final(h).port) then [] else [Final(h)]
  }

  function LatePart(h: History, t: int): History {
    if h == [] then []
    else LatePart(Front(h), t) + if t in Stamps(Front(h), Final(h).port) then [Final(h)] else []
  }

  lemma OnPortAppends(h: History, d: Delivery, q: Port)
    ensures OnPort(h + [d], q) == OnPort(h, q) + if d.port == q then [d] else []
    ensures OnPort(h + [], q) == OnPort(h, q)
  {
    Unfold(h, d);
    assert h + [] == h;
  }

  lemma {:induction false} PartsOnPort(h: History, t: int, q: Port)
    ensures OnPort(EarlyPart(h, t), q) + OnPort(LatePart(h, t), q) == OnPort(h, q)
    ensures t !in Stamps(h, q) ==> OnPort(LatePart(h, t), q) == []
  {
    if h != [] {
      var f, x := Front(h), Final(h);
      PartsOnPort(f, t, q);
      OnPortAppends(EarlyPart(f, t), x, q);
      OnPortAppends(LatePart(f, t), x, q);
      if x.port == q {
        LastOnPort(OnPort(EarlyPart(f, t), q), OnPort(LatePart(f, t), q), x);
      }
    }
  }

  lemma LastOnPort(a: History, b: History, x: Delivery)
    ensures a + (b + [x]) == a + b + [x]
    ensures b == [] ==> (a + [x]) + b == a + b + [x]
  {
  }

  lemma PacketsAppends(h: History, d: Delivery, q: Port, t: int)
    ensures PacketsAt(h + [d], q, t) == PacketsAt(h, q, t) + if Delivers(d, q, t) then [d.packet] else []
    ensures PacketsAt(h + [], q, t) == PacketsAt(h, q, t)
  {
    Unfold(h, d);
    assert h + [] == h;
  }

  /** The early part has the first packet of the timestamp, the late part the others. */
  lemma {:induction false} PartsPackets(h: History, t: int, q: Port)
    ensures |PacketsAt(EarlyPart(h, t), q, t)| == if PacketsAt(h, q, t) == [] then 0 else 1
    ensures |PacketsAt(EarlyPart(h, t), q, t)| + |PacketsAt(LatePart(h, t), q, t)| == |PacketsAt(h, q, t)|
  {
    if h != [] {
      PartsPackets(Front(h), t, q);
      LatestIsLast(Front(h), q, t);
      PacketsAppends(EarlyPart(Front(h), t), Final(h), q, t);
      PacketsAppends(LatePart(Front(h), t), Final(h), q, t);
    }
  }

  lemma PartsInterleave(c: Contract, h: History, t: int)
    ensures Interleaves(c, h, EarlyPart(h, t) + LatePart(h, t))
  {
    forall q
      ensures OnPort(EarlyPart(h, t) + LatePart(h, t), q) == OnPort(h, q)
    {
      OnPortConcat(EarlyPart(h, t), LatePart(h, t), q);
      PartsOnPort(h, t, q);
    }
  }

  /** When every required port repeats the timestamp, both parts complete it. */
  lemma BothPartsComplete(c: Contract, h: History, t: int)
    requires Required(c) != {} && forall q :: q in Required(c) ==> |PacketsAt(h, q, t)| >= 2
    ensures t in Intersection(c, EarlyPart(h, t)) && t in Intersection(c, LatePart(h, t))
    ensures forall q :: q in Required(c) ==> |PacketsAt(EarlyPart(h, t), q, t)| == 1
  {
    forall q | q in Required(c)
      ensures t in Stamps(EarlyPart(h, t), q) && t in Stamps(LatePart(h, t), q)
      ensures |PacketsAt(EarlyPart(h, t), q, t)| == 1
    {
      assert |PacketsAt(h, q, t)| >= 2;
      PartsPackets(h, t, q);
      LatestIsLast(EarlyPart(h, t), q, t);
      LatestIsLast(LatePart(h, t), q, t);
    }
    IntersectionMeaning(c, EarlyPart(h, t), t);
    IntersectionMeaning(c, LatePart(h, t), t);
  }

  lemma AllOnceIsEmpty(c: Contract, h: History, t: int)
    requires Required(c) != {} && Loose(c, h) && t in Intersection(c, h)
    requires forall q :: q in Required(c) ==> |PacketsAt(h, q, t)| == 1
    ensures ColumnAfter(c, h, t) == map[]
  {
    ColumnIsLatest(c, h, t);
    var col := ColumnAfter(c, h, t);
    forall q
      ensures q !in col
    {
      if q in Required(c) {
        assert |PacketsAt(h, q, t)| == 1;
        OnceIsGone(c, h, q, t);
      }
    }
    assert col == map[];
  }

  lemma MatchedTwice(c: Contract, h: History, t: int)
    requires Required(c) != {} && Loose(c, h) && forall q :: q in Required(c) ==> |PacketsAt(h, q, t)| >= 2
    ensures |MatchesAt(HandedOut(c, EarlyPart(h, t) + LatePart(h, t)), t)| >= 2
  {
    var a, b := EarlyPart(h, t), LatePart(h, t);
    PartsInterleave(c, h, t);
    LooseTransfers(c, h, a + b);
    LoosePrefix(c, a, b);
    BothPartsComplete(c, h, t);
    AllOnceIsEmpty(c, a, t);
    assert [] + a == a;
    OneMoreMatch(c, [], a, t);
    OneMoreMatch(c, a, b, t);
  }

  lemma MatchedOnce(c: Contract, h: History, p: Port, t: int, q: Port)
    requires Required(c) != {} && p in Required(c) && q in Required(c) && q != p
    ensures |MatchesAt(HandedOut(c, Sandwich(h, p, |OnPort(h, p)|)), t)| <= 1
  {
    var s, w := OnPort(h, p), Without(h, p);
    assert Sandwich(h, p, |s|) == s + w && s[..|s|] == s;
    NotBeforeOthers(c, h, p, |s|, |s|, t, q);
    NoMatchYet(c, s, t);
    WithoutHasNone(h, p);
    AbsentPort(w, p, t);
    NoMoreThanHeld(c, s, w, p, t);
  }

  lemma RepeatsShow(c: Contract, h: History, p: Port, t: int, q: Port)
    requires Required(c) != {} && Loose(c, h) && p in Required(c) && q in Required(c) && q != p
    requires forall r :: r in Required(c) ==> |PacketsAt(h, r, t)| >= 2
    ensures Disagree(c, h)
  {
    MatchedTwice(c, h, t);
    MatchedOnce(c, h, p, t, q);
    PartsInterleave(c, h, t);
    SandwichInterleaves(c, h, p, |OnPort(h, p)|);
  }

  // ---------------------------------------------------------------------------
  // Exactly when the interleaving does not show
  // ---------------------------------------------------------------------------

  lemma CalmTransfers(c: Contract, h0: History, h: History)
    requires Required(c) != {} && Calm(c, h0) && Interleaves(c, h0, h)
    ensures Calm(c, h)
  {
    forall t | t in Intersection(c, h)
      ensures CalmAt(c, h, t)
    {
      InterleavesIntersection(c, h0, h, t);
      assert CalmAt(c, h0, t);
      forall p | p in Required(c)
        ensures PacketsAt(h, p, t) == PacketsAt(h0, p, t) && Uniform(h, p, t)
      {
        InterleavesAgree(c, h0, h, p, t);
        assert Uniform(h0, p, t);
      }
      var p :| p in Required(c) && |PacketsAt(h0, p, t)| == 1;
      assert |PacketsAt(h, p, t)| == 1;
    }
  }

  lemma CalmAgrees(c: Contract, h0: History, h: History)
    requires Required(c) != {} && Loose(c, h0) && Calm(c, h0) && Interleaves(c, h0, h)
    ensures HandedOut(c, h) == HandedOut(c, h0)
  {
    LooseTransfers(c, h0, h);
    CalmTransfers(c, h0, h);
    CalmRefines(c, h0);
    CalmRefines(c, h);
    forall p | p in Required(c)
      ensures AgreeOn(h, h0, p)
    {
      StampsOnPort(h, p);
      StampsOnPort(h0, p);
    }
    SameReference(c, h, h0);
  }

  /** With one required port every datum is a match of its own. */
  function Singles(s: History): seq<Matched> {
    if s == [] then []
    else
      Singles(Front(s)) +
      if IsDatum(Final(s)) then [Matched(Final(s).packet.ts, map[Final(s).port := Final(s).packet])] else []
  }

  lemma {:induction false} OnePortColumn(c: Contract, h: History, p: Port, t: int)
    requires Required(c) == {p}
    ensures ColumnAfter(c, h, t) == map[]
  {
    if h != [] { OnePortColumn(c, Front(h), p, t); }
  }

  lemma {:induction false} OnePortHandsOutAll(c: Contract, h: History, p: Port)
    requires Required(c) == {p}
    ensures HandedOut(c, h) == Singles(OnPort(h, p))
  {
    if h != [] {
      OnePortHandsOutAll(c, Front(h), p);
      HandsOutColumns(c, h);
      OnePortColumn(c, Front(h), p, Final(h).packet.ts);
      if Final(h).port == p {
        Unfold(OnPort(Front(h), p), Final(h));
      }
    }
  }

  ghost predicate OneRequired(c: Contract) {
    exists p :: Required(c) == {p}
  }

  lemma AnotherPort(c: Contract, p: Port) returns (q: Port)
    requires p in Required(c) && !OneRequired(c)
    ensures q in Required(c) && q != p
  {
    assert Required(c) - {p} == {} ==> Required(c) == {p};
    q := Pick(Required(c) - {p});
  }

  lemma StormShows(c: Contract, h: History)
    requires Required(c) != {} && Loose(c, h) && !OneRequired(c) && !Calm(c, h)
    ensures Disagree(c, h)
  {
    var t :| t in Intersection(c, h) && !CalmAt(c, h, t);
    if p :| p in Required(c) && !Uniform(h, p, t) {
      var q := AnotherPort(c, p);
      UnequalPacketsShow(c, h, p, t, q);
    } else {
      var p := Anchor(c);
      var q := AnotherPort(c, p);
      forall r | r in Required(c)
        ensures |PacketsAt(h, r, t)| >= 2
      {
        IntersectionMeaning(c, h, t);
        LatestIsLast(h, r, t);
        assert |PacketsAt(h, r, t)| != 1;
      }
      RepeatsShow(c, h, p, t, q);
    }
  }

  /**
    Whatever the streams, every interleaving hands out the same data exactly when there is one required port, or at
    every timestamp common to all required ports one of them delivers once and none delivers different packets.
    */
  lemma InterleavingsAgreeIff(c: Contract, h0: History)
    requires Required(c) != {} && Loose(c, h0)
    ensures (forall h :: Interleaves(c, h0, h) ==> HandedOut(c, h) == HandedOut(c, h0)) <==>
      OneRequired(c) || Calm(c, h0)
  {
    if p :| Required(c) == {p} {
      forall h | Interleaves(c, h0, h)
        ensures HandedOut(c, h) == HandedOut(c, h0)
      {
        OnePortHandsOutAll(c, h, p);
        OnePortHandsOutAll(c, h0, p);
      }
    } else if Calm(c, h0) {
      forall h | Interleaves(c, h0, h)
        ensures HandedOut(c, h) == HandedOut(c, h0)
      {
        CalmAgrees(c, h0, h);
      }
    } else {
      StormShows(c, h0);
    }
  }
}
