/** The order in which a batch interleaves its sources. */
module RoundRobin {
  import opened Packets
  import opened Sequences

  type Source = string

  datatype Item = Item(source: Source, packet: Packet)

  // ---------------------------------------------------------------------------
  // The items of one source
  // ---------------------------------------------------------------------------

  function Of(items: seq<Item>, s: Source): seq<Item> {
    if items == [] then []
    else if Final(items).source == s then Of(Front(items), s) + [Final(items)]
    else Of(Front(items), s)
  }

  lemma OfAppends(items: seq<Item>, x: Item, s: Source)
    ensures Of(items + [x], s) == if x.source == s then Of(items, s) + [x] else Of(items, s)
  {
    assert Front(items + [x]) == items;
  }

  lemma {:induction false} OfConcat(a: seq<Item>, b: seq<Item>, s: Source)
    ensures Of(a + b, s) == Of(a, s) + Of(b, s)
    decreases |b|
  {
    if b == [] {
      assert a + b == a;
    } else {
      OfConcat(a, Front(b), s);
      assert a + b == (a + Front(b)) + [Final(b)];
      OfAppends(a + Front(b), Final(b), s);
    }
  }

  lemma {:induction false} OfIsEmptyIff(items: seq<Item>, s: Source)
    ensures Of(items, s) == [] <==> forall x :: x in items ==> x.source != s
  {
    if items != [] {
      OfIsEmptyIff(Front(items), s);
      assert items == Front(items) + [Final(items)];
    }
  }

  lemma {:induction false} OfCounts(items: seq<Item>, x: Item)
    ensures multiset(Of(items, x.source))[x] == multiset(items)[x]
  {
    if items != [] {
      OfCounts(Front(items), x);
      assert items == Front(items) + [Final(items)];
    }
  }

  /** Sequences that agree source by source hold the same items. */
  lemma SameSourcesSameItems(a: seq<Item>, b: seq<Item>)
    requires forall s :: Of(a, s) == Of(b, s)
    ensures multiset(a) == multiset(b)
  {
    forall x
      ensures multiset(a)[x] == multiset(b)[x]
    {
      OfCounts(a, x);
      OfCounts(b, x);
      assert Of(a, x.source) == Of(b, x.source);
    }
  }

  // ---------------------------------------------------------------------------
  // The flush
  // ---------------------------------------------------------------------------

  /** The sources in the order of their first item. */
  function SourceOrder(items: seq<Item>): (order: seq<Source>)
    ensures Distinct(order)
    ensures forall x :: x in items ==> x.source in order
    ensures items != [] ==> order != [] && order[0] == items[0].source
  {
    if items == [] then []
    else
      var order := SourceOrder(Front(items));
      assert items == Front(items) + [Final(items)];
      if Final(items).source in order then order else order + [Final(items).source]
  }

  predicate Distinct(order: seq<Source>) {
    forall i, j :: 0 <= i < j < |order| ==> order[i] != order[j]
  }

  /** The position of a source's first item, or the length. */
  function Find(items: seq<Item>, s: Source): (k: nat)
    ensures k <= |items|
    ensures k < |items| ==> items[k].source == s
    ensures forall i :: 0 <= i < k ==> items[i].source != s
  {
    if items == [] || items[0].source == s then 0 else 1 + Find(items[1..], s)
  }

  datatype Taken = Taken(taken: seq<Item>, rest: seq<Item>)

  function TakeOne(items: seq<Item>, s: Source): Taken {
    var k := Find(items, s);
    if k == |items| then Taken([], items) else Taken([items[k]], items[..k] + items[k + 1..])
  }

  function Round(order: seq<Source>, items: seq<Item>): Taken {
    if order == [] then Taken([], items)
    else
      var one := TakeOne(items, order[0]);
      var others := Round(order[1..], one.rest);
      Taken(one.taken + others.taken, others.rest)
  }

  ghost predicate Covers(order: seq<Source>, items: seq<Item>) {
    forall x :: x in items ==> x.source in order
  }

  lemma TakeOneShrinks(items: seq<Item>, s: Source)
    ensures
      var t := TakeOne(items, s);
      && |t.taken| + |t.rest| == |items|
      && (forall x :: x in t.rest ==> x in items)
      && (t.taken == [] ==> t.rest == items && forall x :: x in items ==> x.source != s)
  {
    var k := Find(items, s);
    if k < |items| {
      assert forall x :: x in TakeOne(items, s).rest ==> x in items[..k] || x in items[k + 1..];
    }
  }

  lemma {:induction false} RoundShrinks(order: seq<Source>, items: seq<Item>)
    ensures
      var t := Round(order, items);
      && |t.taken| + |t.rest| == |items|
      && (forall x :: x in t.rest ==> x in items)
      && (t.taken == [] ==> t.rest == items && forall x :: x in items ==> x.source !in order)
  {
    if order != [] {
      TakeOneShrinks(items, order[0]);
      RoundShrinks(order[1..], TakeOne(items, order[0]).rest);
      assert order == [order[0]] + order[1..];
    }
  }

  /** Rounds over the sources, one item each, until nothing is left. */
  ghost function Interleaved(order: seq<Source>, items: seq<Item>): seq<Item>
    requires Covers(order, items)
    decreases |items|
  {
    if items == [] then []
    else
      RoundShrinks(order, items);
      var t := Round(order, items);
      assert t.taken == [] ==> items[0].source !in order;
      t.taken + Interleaved(order, t.rest)
  }

  ghost function Batch(pending: seq<Item>): seq<Item> {
    Interleaved(SourceOrder(pending), pending)
  }

  method CollectSources(pending: seq<Item>) returns (order: seq<Source>)
    ensures order == SourceOrder(pending)
  {
    order := [];
    for i := 0 to |pending|
      invariant order == SourceOrder(pending[..i])
    {
      assert Front(pending[..i + 1]) == pending[..i];
      if pending[i].source !in order {
        order := order + [pending[i].source];
      }
    }
    assert pending[..|pending|] == pending;
  }

  lemma RoundUnfolds(order: seq<Source>, items: seq<Item>, k: nat, before: seq<Item>)
    requires k < |order|
    ensures
      var one := TakeOne(items, order[k]);
      && Round(order[k..], items).rest == Round(order[k + 1..], one.rest).rest
      && before + Round(order[k..], items).taken == before + one.taken + Round(order[k + 1..], one.rest).taken
  {
    assert order[k..][1..] == order[k + 1..];
  }

  method TakeRound(order: seq<Source>, pending: seq<Item>) returns (taken: seq<Item>, rest: seq<Item>)
    ensures Taken(taken, rest) == Round(order, pending)
  {
    taken, rest := [], pending;
    assert order[0..] == order;
    for k := 0 to |order|
      invariant taken + Round(order[k..], rest).taken == Round(order, pending).taken
      invariant Round(order[k..], rest).rest == Round(order, pending).rest
    {
      var at := Find(rest, order[k]);
      RoundUnfolds(order, rest, k, taken);
      assert at == |rest| ==> taken + TakeOne(rest, order[k]).taken == taken;
      if at < |rest| {
        taken := taken + [rest[at]];
        rest := rest[..at] + rest[at + 1..];
      }
    }
    assert taken + Round(order[|order|..], rest).taken == taken;
  }

  method FlushPending(pending: seq<Item>) returns (items: seq<Item>)
    ensures items == Batch(pending)
  {
    var order := CollectSources(pending);
    items := [];
    var rest := pending;
    while rest != []
      invariant Covers(order, rest)
      invariant items + Interleaved(order, rest) == Batch(pending)
      decreases |rest|
    {
      RoundShrinks(order, rest);
      var taken, remaining := TakeRound(order, rest);
      items, rest := items + taken, remaining;
    }
  }

  // ---------------------------------------------------------------------------
  // What the order means
  // ---------------------------------------------------------------------------

  /** The index of a source in the order. */
  function Position(order: seq<Source>, s: Source): (k: nat)
    ensures k <= |order|
    ensures k < |order| ==> order[k] == s
    ensures forall i :: 0 <= i < k ==> order[i] != s
  {
    if order == [] || order[0] == s then 0 else 1 + Position(order[1..], s)
  }

  /** Which turn of its source an item is, and that source's place within the round. */
  datatype Rank = Rank(turn: nat, place: nat)

  predicate Before(a: Rank, b: Rank) {
    a.turn < b.turn || (a.turn == b.turn && a.place < b.place)
  }

  ghost function RankAt(order: seq<Source>, out: seq<Item>, i: nat): Rank
    requires i < |out|
  {
    Rank(|Of(out[..i], out[i].source)|, Position(order, out[i].source))
  }

  /** Every first item of a source precedes every second one, and so on, sources in order within a turn. */
  ghost predicate Fair(order: seq<Source>, out: seq<Item>) {
    forall i, j :: 0 <= i < j < |out| ==> Before(RankAt(order, out, i), RankAt(order, out, j))
  }

  ghost predicate AllBefore(order: seq<Source>, out: seq<Item>, bound: Rank) {
    forall i :: 0 <= i < |out| ==> Before(RankAt(order, out, i), bound)
  }

  lemma FairAppends(order: seq<Source>, out: seq<Item>, x: Item)
    requires Fair(order, out)
    requires AllBefore(order, out, Rank(|Of(out, x.source)|, Position(order, x.source)))
    ensures Fair(order, out + [x])
    ensures AllBefore(order, out + [x], Rank(|Of(out, x.source)|, Position(order, x.source) + 1))
  {
    var grown := out + [x];
    assert forall i :: 0 <= i < |out| ==> grown[..i] == out[..i] && grown[i] == out[i];
    assert grown[..|out|] == out;
    assert forall i :: 0 <= i < |out| ==> RankAt(order, grown, i) == RankAt(order, out, i);
  }

  /** What is known after `round` rounds and `k` sources of the next one. */
  ghost predicate Split(items: seq<Item>, out: seq<Item>, pending: seq<Item>) {
    forall s :: Of(items, s) == Of(out, s) + Of(pending, s)
  }

  ghost predicate TurnsDone(order: seq<Source>, out: seq<Item>, pending: seq<Item>, round: nat, k: nat) {
    forall i :: 0 <= i < |order| && Of(pending, order[i]) != [] ==>
      |Of(out, order[i])| == round + if i < k then 1 else 0
  }

  ghost predicate Progress(
    order: seq<Source>, items: seq<Item>, out: seq<Item>, pending: seq<Item>, round: nat, k: nat)
  {
    && Split(items, out, pending)
    && TurnsDone(order, out, pending, round, k)
    && Fair(order, out)
    && AllBefore(order, out, Rank(round, k))
  }

  /** An item in the middle of a sequence, seen from one source. */
  lemma OfMiddle(left: seq<Item>, x: Item, right: seq<Item>, o: Source)
    ensures Of(left + [x] + right, o) == Of(left, o) + (if x.source == o then [x] else []) + Of(right, o)
    ensures Of(left + right, o) == Of(left, o) + Of(right, o)
  {
    OfConcat(left + [x], right, o);
    OfAppends(left, x, o);
    OfConcat(left, right, o);
  }

  /** Taking a source's first item moves it from the head of what is left of that source. */
  lemma TakeOneMoves(items: seq<Item>, s: Source, o: Source)
    ensures
      var t := TakeOne(items, s);
      && (t.taken != [] ==> |t.taken| == 1 && t.taken[0].source == s)
      && (o == s ==> Of(items, o) == t.taken + Of(t.rest, o))
      && (o != s ==> Of(items, o) == Of(t.rest, o))
      && (t.taken == [] ==> Of(items, s) == [] && t.rest == items)
  {
    var k := Find(items, s);
    if k == |items| {
      OfIsEmptyIff(items, s);
      assert TakeOne(items, s) == Taken([], items);
    } else {
      TakeFound(items, k, o);
    }
  }

  lemma TakeFound(items: seq<Item>, k: nat, o: Source)
    requires k < |items| && forall i :: 0 <= i < k ==> items[i].source != items[k].source
    ensures
      var s, rest := items[k].source, items[..k] + items[k + 1..];
      && (o == s ==> Of(items, o) == [items[k]] + Of(rest, o))
      && (o != s ==> Of(items, o) == Of(rest, o))
  {
    var left, right := items[..k], items[k + 1..];
    assert items == left + [items[k]] + right;
    OfMiddle(left, items[k], right, o);
    if o == items[k].source {
      OfIsEmptyIff(left, o);
      assert [] + [items[k]] + Of(right, o) == [items[k]] + ([] + Of(right, o));
    } else {
      assert Of(left, o) + [] + Of(right, o) == Of(left, o) + Of(right, o);
    }
  }

  /** One item goes from the head of its source's pending part to the end of its emitted part. */
  lemma MoveOne(items: seq<Item>, out: seq<Item>, pending: seq<Item>, x: Item, rest: seq<Item>, o: Source)
    requires Of(items, o) == Of(out, o) + Of(pending, o)
    requires o == x.source ==> Of(pending, o) == [x] + Of(rest, o)
    requires o != x.source ==> Of(pending, o) == Of(rest, o)
    ensures Of(items, o) == Of(out + [x], o) + Of(rest, o)
  {
    OfAppends(out, x, o);
    if o == x.source {
      Associates(Of(out, o), [x], Of(rest, o));
    }
  }

  lemma Associates<T>(a: seq<T>, b: seq<T>, c: seq<T>)
    ensures a + (b + c) == a + b + c
  {
  }

  lemma SplitMovesOf(items: seq<Item>, out: seq<Item>, pending: seq<Item>, s: Source, o: Source)
    requires Of(items, o) == Of(out, o) + Of(pending, o)
    ensures Of(items, o) == Of(out + TakeOne(pending, s).taken, o) + Of(TakeOne(pending, s).rest, o)
  {
    var taken, rest := TakeOne(pending, s).taken, TakeOne(pending, s).rest;
    TakeOneMoves(pending, s, o);
    if taken == [] {
      assert out + taken == out;
    } else {
      assert taken == [taken[0]];
      MoveOne(items, out, pending, taken[0], rest, o);
    }
  }

  lemma SplitMoves(items: seq<Item>, out: seq<Item>, pending: seq<Item>, s: Source)
    requires Split(items, out, pending)
    ensures Split(items, out + TakeOne(pending, s).taken, TakeOne(pending, s).rest)
  {
    forall o
      ensures Of(items, o) == Of(out + TakeOne(pending, s).taken, o) + Of(TakeOne(pending, s).rest, o)
    {
      SplitMovesOf(items, out, pending, s, o);
    }
  }

  lemma TakeOneProgresses(order: seq<Source>, items: seq<Item>, out: seq<Item>, pending: seq<Item>, round: nat, k: nat)
    requires Distinct(order) && k < |order| && Progress(order, items, out, pending, round, k)
    ensures
      var t := TakeOne(pending, order[k]);
      Progress(order, items, out + t.taken, t.rest, round, k + 1)
  {
    var s := order[k];
    var t := TakeOne(pending, s);
    SplitMoves(items, out, pending, s);
    TakeOneMoves(pending, s, s);
    TurnsMove(order, out, pending, round, k);
    if t.taken == [] {
      assert out + t.taken == out;
    } else {
      assert t.taken == [t.taken[0]];
      assert Position(order, s) == k;
      FairAppends(order, out, t.taken[0]);
    }
  }

  lemma TurnsMove(order: seq<Source>, out: seq<Item>, pending: seq<Item>, round: nat, k: nat)
    requires Distinct(order) && k < |order| && TurnsDone(order, out, pending, round, k)
    ensures
      var t := TakeOne(pending, order[k]);
      TurnsDone(order, out + t.taken, t.rest, round, k + 1)
  {
    var t := TakeOne(pending, order[k]);
    forall i | 0 <= i < |order| && Of(t.rest, order[i]) != []
      ensures |Of(out + t.taken, order[i])| == round + if i < k + 1 then 1 else 0
    {
      TakeOneMoves(pending, order[k], order[i]);
      if t.taken == [] {
        assert out + t.taken == out;
      } else {
        assert t.taken == [t.taken[0]];
        OfAppends(out, t.taken[0], order[i]);
      }
    }
  }

  lemma {:induction false} RoundProgresses(
    order: seq<Source>, items: seq<Item>, out: seq<Item>, pending: seq<Item>, round: nat, k: nat)
    requires Distinct(order) && k <= |order| && Progress(order, items, out, pending, round, k)
    ensures
      var t := Round(order[k..], pending);
      Progress(order, items, out + t.taken, t.rest, round, |order|)
    decreases |order| - k
  {
    if k == |order| {
      assert out + [] == out;
    } else {
      var one := TakeOne(pending, order[k]);
      TakeOneProgresses(order, items, out, pending, round, k);
      RoundUnfolds(order, pending, k, out);
      RoundProgresses(order, items, out + one.taken, one.rest, round, k + 1);
    }
  }

  lemma WholeRound(order: seq<Source>, items: seq<Item>, out: seq<Item>, pending: seq<Item>, round: nat)
    requires Distinct(order) && Progress(order, items, out, pending, round, 0)
    ensures
      var t := Round(order, pending);
      Progress(order, items, out + t.taken, t.rest, round + 1, 0)
  {
    RoundProgresses(order, items, out, pending, round, 0);
    assert order[0..] == order;
  }

  ghost predicate Complete(order: seq<Source>, items: seq<Item>, whole: seq<Item>) {
    Fair(order, whole) && forall s :: Of(whole, s) == Of(items, s)
  }

  lemma NothingLeft(order: seq<Source>, items: seq<Item>, out: seq<Item>, round: nat)
    requires Progress(order, items, out, [], round, 0)
    ensures Complete(order, items, out)
  {
    forall s
      ensures Of(out, s) == Of(items, s)
    {
      assert Of(out, s) + Of([], s) == Of(out, s);
    }
  }

  lemma InterleavedUnfolds(order: seq<Source>, pending: seq<Item>, before: seq<Item>)
    requires Covers(order, pending) && pending != []
    ensures
      var t := Round(order, pending);
      && |t.rest| < |pending| && Covers(order, t.rest)
      && before + Interleaved(order, pending) == before + t.taken + Interleaved(order, t.rest)
  {
    RoundShrinks(order, pending);
    assert pending[0].source in order;
  }

  lemma {:induction false} InterleavingIsFair(
    order: seq<Source>, items: seq<Item>, out: seq<Item>, pending: seq<Item>, round: nat)
    requires Distinct(order) && Covers(order, pending) && Progress(order, items, out, pending, round, 0)
    ensures Complete(order, items, out + Interleaved(order, pending))
    decreases |pending|
  {
    if pending == [] {
      NothingLeft(order, items, out, round);
      assert out + Interleaved(order, pending) == out;
    } else {
      var t := Round(order, pending);
      WholeRound(order, items, out, pending, round);
      InterleavedUnfolds(order, pending, out);
      InterleavingIsFair(order, items, out + t.taken, t.rest, round + 1);
    }
  }

  /** A batch is the pending items, each source's in arrival order, sources taking turns. */
  lemma BatchTakesTurns(pending: seq<Item>)
    ensures Fair(SourceOrder(pending), Batch(pending))
    ensures forall s :: Of(Batch(pending), s) == Of(pending, s)
    ensures multiset(Batch(pending)) == multiset(pending)
  {
    var order := SourceOrder(pending);
    forall s
      ensures Of([], s) + Of(pending, s) == Of(pending, s)
    {
    }
    InterleavingIsFair(order, pending, [], pending, 0);
    assert [] + Batch(pending) == Batch(pending);
    SameSourcesSameItems(Batch(pending), pending);
  }

  /** So a batch starts with the packet that waited longest, and carries its timestamp. */
  lemma BatchStartsWithFirstArrival(pending: seq<Item>)
    requires pending != []
    ensures Batch(pending) != [] && Batch(pending)[0] == pending[0]
  {
    var order := SourceOrder(pending);
    RoundShrinks(order, pending);
    assert Find(pending, order[0]) == 0;
  }
}
