/**
  Removing a dynamic source. Every packet a source contributes carries a lifetime token that
  counts against the source's drain state; packets made from it inherit the token, and the
  last copy to go gives it back. `RemoveSource` stops admissions and waits for the count.

  A slot is any place that keeps a packet alive: a queue cell, a join buffer, a batch, an
  observer, a node's own state, a thread's stack. Steps are atomic; runs interleave them.
  */
module SourceBarrier {
  import opened Basics

  type Token = nat
  type Drain = nat
  type Slot = nat
  type Tid = nat

  /** `origins` are the admitted packets whose data went into this one; `items` are a batch's packets. */
  datatype Packet = Packet(tokens: set<Token>, origins: set<Token>, items: seq<Packet>)

  datatype DrainState = DrainState(accepting: bool, inFlight: nat, removed: bool)

  datatype State = State(
    drains: map<Drain, DrainState>,
    drainOf: map<Token, Drain>,
    slots: map<Slot, Packet>,
    admitting: map<Tid, Drain>,
    dying: set<Token>,
    removing: Option<Drain>)

  datatype Step =
    | NewSource(d: Drain)
    | Admit(th: Tid, d: Drain)
    | Attach(th: Tid, base: Option<Slot>, to: Slot, token: Token)
    | Copy(from: Slot, to: Slot)
    | Emit(inputs: set<Slot>, base: Option<Slot>, to: Slot, kept: set<Token>)
    | Batch(items: seq<Slot>, to: Slot)
    | Unbatch(from: Slot, i: nat, to: Slot)
    | Drop(slot: Slot)
    | Release(token: Token)
    | RemoveBegin(d: Drain)
    | RemoveSucceed
    | RemoveTimeout
    | Restart(d: Drain)

  // ---------------------------------------------------------------------------
  // Tokens a packet keeps alive
  // ---------------------------------------------------------------------------

  function AllTokens(p: Packet): set<Token>
    decreases p
  {
    p.tokens + ItemTokens(p.items)
  }

  function ItemTokens(items: seq<Packet>): set<Token>
    decreases items
  {
    if items == [] then {} else AllTokens(items[0]) + ItemTokens(items[1..])
  }

  /** Whatever a packet's data came from, its own tokens cover; so do those of the packets inside it. */
  predicate Covered(p: Packet)
    decreases p
  {
    p.origins <= p.tokens && forall i :: 0 <= i < |p.items| ==> Covered(p.items[i])
  }

  const BARE := Packet({}, {}, [])

  function Base(st: State, from: Option<Slot>): Packet {
    if from.Some? && from.value in st.slots then st.slots[from.value] else BARE
  }

  /** Tokens and origins a packet emitted from these inputs inherits. */
  function Inherited(st: State, inputs: set<Slot>): set<Token> {
    set s, t | s in inputs && s in st.slots && t in st.slots[s].tokens :: t
  }

  function InheritedOrigins(st: State, inputs: set<Slot>): set<Token> {
    set s, t | s in inputs && s in st.slots && t in st.slots[s].origins :: t
  }

  /**
    What a node emits: a packet of its own or one it holds, which inherits the tokens of the current inputs. `kept` are
    admitted packets whose data the node has copied into its own state earlier; the runtime knows nothing of them.
    */
  function Emitted(st: State, inputs: set<Slot>, base: Option<Slot>, kept: set<Token>): Packet {
    var p := Base(st, base);
    p.(tokens := p.tokens + Inherited(st, inputs), origins := p.origins + InheritedOrigins(st, inputs) + kept)
  }

  function Gathered(st: State, items: seq<Slot>): seq<Packet> {
    seq(|items|, i requires 0 <= i < |items| => Base(st, Some(items[i])))
  }

  function UnionTokens(items: seq<Packet>): set<Token> {
    set i, t | 0 <= i < |items| && t in items[i].tokens :: t
  }

  function UnionOrigins(items: seq<Packet>): set<Token> {
    set i, t | 0 <= i < |items| && t in items[i].origins :: t
  }

  /** The batch packet: its tokens are those of its items. */
  function BatchPacket(items: seq<Packet>): Packet {
    Packet(UnionTokens(items), UnionOrigins(items), items)
  }

  /** Collecting the tokens of a batch, one item at a time. */
  method MakePacketBatch(items: seq<Packet>) returns (packet: Packet)
    ensures packet.items == items && packet.tokens == UnionTokens(items) && packet.origins == UnionOrigins(items)
    ensures (forall i :: 0 <= i < |items| ==> Covered(items[i])) ==> Covered(packet)
  {
    var tokens: set<Token>, origins: set<Token> := {}, {};
    for k := 0 to |items|
      invariant tokens == UnionTokens(items[..k]) && origins == UnionOrigins(items[..k])
    {
      UnionStep(items, k);
      tokens := tokens + items[k].tokens;
      origins := origins + items[k].origins;
    }
    assert items[..|items|] == items;
    packet := Packet(tokens, origins, items);
    BatchIsCovered(items);
  }

  lemma UnionStep(items: seq<Packet>, k: nat)
    requires k < |items|
    ensures UnionTokens(items[..k + 1]) == UnionTokens(items[..k]) + items[k].tokens
    ensures UnionOrigins(items[..k + 1]) == UnionOrigins(items[..k]) + items[k].origins
  {
    var a, b := items[..k], items[..k + 1];
    assert forall i :: 0 <= i < k ==> b[i] == a[i];
    forall t
      ensures t in UnionTokens(b) <==> t in UnionTokens(a) || t in items[k].tokens
    {
      if t in UnionTokens(b) { var i :| 0 <= i < |b| && t in b[i].tokens; assert i == k || t in a[i].tokens; }
      if t in UnionTokens(a) { var i :| 0 <= i < |a| && t in a[i].tokens; assert t in b[i].tokens; }
      if t in items[k].tokens { assert t in b[k].tokens; }
    }
    forall t
      ensures t in UnionOrigins(b) <==> t in UnionOrigins(a) || t in items[k].origins
    {
      if t in UnionOrigins(b) { var i :| 0 <= i < |b| && t in b[i].origins; assert i == k || t in a[i].origins; }
      if t in UnionOrigins(a) { var i :| 0 <= i < |a| && t in a[i].origins; assert t in b[i].origins; }
      if t in items[k].origins { assert t in b[k].origins; }
    }
  }

  lemma BatchIsCovered(items: seq<Packet>)
    ensures (forall i :: 0 <= i < |items| ==> Covered(items[i])) ==> Covered(BatchPacket(items))
  {
    if forall i :: 0 <= i < |items| ==> Covered(items[i]) {
      forall t | t in UnionOrigins(items)
        ensures t in UnionTokens(items)
      {
        var i :| 0 <= i < |items| && t in items[i].origins;
        assert Covered(items[i]);
      }
    }
  }

  lemma {:induction false} ItemTokensMeaning(items: seq<Packet>, t: Token)
    ensures t in ItemTokens(items) <==> exists i :: 0 <= i < |items| && t in AllTokens(items[i])
  {
    if items != [] {
      ItemTokensMeaning(items[1..], t);
      if t in ItemTokens(items) {
        if t !in AllTokens(items[0]) {
          var i :| 0 <= i < |items[1..]| && t in AllTokens(items[1..][i]);
          assert items[i + 1] == items[1..][i];
        }
      }
      if i :| 0 <= i < |items| && t in AllTokens(items[i]) {
        if i > 0 { assert items[1..][i - 1] == items[i]; }
      }
    }
  }

  // ---------------------------------------------------------------------------
  // Steps
  // ---------------------------------------------------------------------------

  ghost function Held(slots: map<Slot, Packet>): set<Token> {
    set s, t | s in slots && t in AllTokens(slots[s]) :: t
  }

  ghost predicate Enabled(st: State, step: Step) {
    match step
    case NewSource(d) => d !in st.drains
    case Admit(th, d) => th !in st.admitting && d in st.drains && st.drains[d].accepting
    case Attach(th, base, to, token) => th in st.admitting && to !in st.slots && token !in st.drainOf
    case Copy(from, to) => from in st.slots && to !in st.slots
    case Emit(inputs, base, to, kept) => to !in st.slots && kept <= st.drainOf.Keys
    case Batch(items, to) => to !in st.slots
    case Unbatch(from, i, to) => from in st.slots && i < |st.slots[from].items| && to !in st.slots
    case Drop(slot) => slot in st.slots
    case Release(token) => token in st.dying && token in st.drainOf && st.drainOf[token] in st.drains
    case RemoveBegin(d) => st.removing == None && d in st.drains && !st.drains[d].removed
    case RemoveSucceed => st.removing.Some? && st.removing.value in st.drains &&
      st.drains[st.removing.value].inFlight == 0
    case RemoveTimeout => st.removing.Some?
    case Restart(d) => st.removing == None && d in st.drains && !st.drains[d].removed
  }

  ghost function Apply(st: State, step: Step): State
    requires Enabled(st, step)
  {
    match step
    case NewSource(d) => st.(drains := st.drains[d := DrainState(true, 0, false)])
    case Admit(th, d) =>
      st.(admitting := st.admitting[th := d],
          drains := st.drains[d := st.drains[d].(inFlight := st.drains[d].inFlight + 1)])
    case Attach(th, base, to, token) =>
      var p := Base(st, base);
      st.(admitting := st.admitting - {th},
          drainOf := st.drainOf[token := st.admitting[th]],
          slots := st.slots[to := p.(tokens := p.tokens + {token}, origins := p.origins + {token})])
    case Copy(from, to) => st.(slots := st.slots[to := st.slots[from]])
    case Emit(inputs, base, to, kept) => st.(slots := st.slots[to := Emitted(st, inputs, base, kept)])
    case Batch(items, to) => st.(slots := st.slots[to := BatchPacket(Gathered(st, items))])
    case Unbatch(from, i, to) => st.(slots := st.slots[to := st.slots[from].items[i]])
    case Drop(slot) =>
      var left := st.slots - {slot};
      st.(slots := left, dying := st.dying + (AllTokens(st.slots[slot]) - Held(left)))
    case Release(token) =>
      var d := st.drainOf[token];
      var n := st.drains[d].inFlight;
      st.(dying := st.dying - {token}, drains := st.drains[d := st.drains[d].(inFlight := if n != 0 then n - 1 else 0)])
    case RemoveBegin(d) => st.(removing := Some(d), drains := st.drains[d := st.drains[d].(accepting := false)])
    case RemoveSucceed =>
      var d := st.removing.value;
      st.(removing := None, drains := st.drains[d := st.drains[d].(removed := true)])
    case RemoveTimeout => st.(removing := None)
    case Restart(d) => st.(drains := st.drains[d := st.drains[d].(accepting := true)])
  }

  const INITIAL := State(map[], map[], map[], map[], {}, None)

  ghost predicate IsRun(run: seq<State>, steps: seq<Step>) {
    && |run| == |steps| + 1
    && run[0] == INITIAL
    && (forall i {:trigger steps[i]} :: 0 <= i < |steps| ==>
          Enabled(run[i], steps[i]) && run[i + 1] == Apply(run[i], steps[i]))
  }

  // ---------------------------------------------------------------------------
  // The count
  // ---------------------------------------------------------------------------

  /** Threads that have been counted in but have not attached their token yet. */
  ghost function Admissions(admitting: map<Tid, Drain>, d: Drain): set<Tid> {
    set th | th in admitting && admitting[th] == d
  }

  /** Tokens that some packet still holds, or whose deleter has not run yet. */
  ghost function Alive(st: State): set<Token> {
    Held(st.slots) + st.dying
  }

  ghost function Outstanding(drainOf: map<Token, Drain>, alive: set<Token>, d: Drain): set<Token> {
    set t | t in drainOf && drainOf[t] == d && t in alive
  }

  ghost predicate CountIs(n: nat, admitting: map<Tid, Drain>, drainOf: map<Token, Drain>, alive: set<Token>, d: Drain) {
    n == |Admissions(admitting, d)| + |Outstanding(drainOf, alive, d)|
  }

  ghost predicate Counted(st: State) {
    AllCount(st.drains, st.admitting, st.drainOf, Alive(st))
  }

  ghost predicate Sound(st: State) {
    && Alive(st) <= st.drainOf.Keys
    && (forall t :: t in st.drainOf ==> st.drainOf[t] in st.drains)
    && (forall th :: th in st.admitting ==> st.admitting[th] in st.drains)
    && Held(st.slots) !! st.dying
  }

  ghost predicate AllCovered(st: State) {
    forall s :: s in st.slots ==> Covered(st.slots[s])
  }

  ghost predicate Removal(st: State) {
    && (st.removing.Some? ==> st.removing.value in st.drains && !st.drains[st.removing.value].accepting)
    && (forall d :: d in st.drains && st.drains[d].removed ==> !st.drains[d].accepting && st.drains[d].inFlight == 0)
    && (st.removing.Some? ==> !st.drains[st.removing.value].removed)
  }

  ghost predicate Inv(st: State) {
    Counted(st) && Sound(st) && Removal(st)
  }

  lemma HeldAdd(slots: map<Slot, Packet>, to: Slot, p: Packet)
    requires to !in slots
    ensures Held(slots[to := p]) == Held(slots) + AllTokens(p)
  {
    var more := slots[to := p];
    forall t
      ensures t in Held(more) <==> t in Held(slots) || t in AllTokens(p)
    {
      if t in Held(slots) { var s :| s in slots && t in AllTokens(slots[s]); assert t in AllTokens(more[s]); }
      if t in AllTokens(p) { assert t in AllTokens(more[to]); }
    }
  }

  lemma HeldDrop(slots: map<Slot, Packet>, slot: Slot)
    requires slot in slots
    ensures Held(slots) == Held(slots - {slot}) + AllTokens(slots[slot])
  {
    var left := slots - {slot};
    HeldAdd(left, slot, slots[slot]);
    assert left[slot := slots[slot]] == slots;
  }

  /** A new packet built only from tokens that are alive changes nothing but where packets are. */
  lemma PacketFromLive(st: State, to: Slot, p: Packet)
    requires Inv(st) && to !in st.slots && AllTokens(p) <= Held(st.slots)
    ensures Inv(st.(slots := st.slots[to := p]))
  {
    var st' := st.(slots := st.slots[to := p]);
    HeldAdd(st.slots, to, p);
    assert Held(st'.slots) == Held(st.slots) && Alive(st') == Alive(st);
  }

  lemma BaseIsLive(st: State, base: Option<Slot>)
    ensures AllTokens(Base(st, base)) <= Held(st.slots)
  {
    assert AllTokens(BARE) == {};
  }

  lemma EmitKeeps(st: State, inputs: set<Slot>, base: Option<Slot>, to: Slot, kept: set<Token>)
    requires Inv(st) && Enabled(st, Emit(inputs, base, to, kept))
    ensures Inv(Apply(st, Emit(inputs, base, to, kept)))
  {
    BaseIsLive(st, base);
    forall t | t in Inherited(st, inputs)
      ensures t in Held(st.slots)
    {
      var s :| s in inputs && s in st.slots && t in st.slots[s].tokens;
      assert t in AllTokens(st.slots[s]);
    }
    PacketFromLive(st, to, Emitted(st, inputs, base, kept));
  }

  lemma BatchKeeps(st: State, items: seq<Slot>, to: Slot)
    requires Inv(st) && Enabled(st, Batch(items, to))
    ensures Inv(Apply(st, Batch(items, to)))
  {
    var gathered := Gathered(st, items);
    forall i | 0 <= i < |gathered|
      ensures AllTokens(gathered[i]) <= Held(st.slots)
    {
      BaseIsLive(st, Some(items[i]));
    }
    forall t | t in AllTokens(BatchPacket(gathered))
      ensures t in Held(st.slots)
    {
      ItemTokensMeaning(gathered, t);
      if t in UnionTokens(gathered) {
        var i :| 0 <= i < |gathered| && t in gathered[i].tokens;
        assert t in AllTokens(gathered[i]);
      }
    }
    PacketFromLive(st, to, BatchPacket(gathered));
  }

  lemma UnbatchKeeps(st: State, from: Slot, i: nat, to: Slot)
    requires Inv(st) && Enabled(st, Unbatch(from, i, to))
    ensures Inv(Apply(st, Unbatch(from, i, to)))
  {
    var batch := st.slots[from];
    forall t | t in AllTokens(batch.items[i])
      ensures t in Held(st.slots)
    {
      ItemTokensMeaning(batch.items, t);
      assert t in AllTokens(batch);
    }
    PacketFromLive(st, to, batch.items[i]);
  }

  lemma CountAdmit(
    n: nat, admitting: map<Tid, Drain>, drainOf: map<Token, Drain>, alive: set<Token>, d: Drain, th: Tid, e: Drain)
    requires CountIs(n, admitting, drainOf, alive, e) && th !in admitting
    ensures CountIs(if e == d then n + 1 else n, admitting[th := d], drainOf, alive, e)
  {
    assert Admissions(admitting[th := d], e) == Admissions(admitting, e) + (if e == d then {th} else {});
  }

  lemma AdmissionAttached(admitting: map<Tid, Drain>, th: Tid, e: Drain)
    requires th in admitting
    ensures |Admissions(admitting - {th}, e)| == |Admissions(admitting, e)| - if admitting[th] == e then 1 else 0
  {
    var adm, adm' := Admissions(admitting, e), Admissions(admitting - {th}, e);
    if admitting[th] == e {
      assert th in adm && adm' == adm - {th};
    } else {
      assert adm' == adm;
    }
  }

  lemma TokenAttached(drainOf: map<Token, Drain>, alive: set<Token>, token: Token, d: Drain, e: Drain)
    requires token !in drainOf
    ensures |Outstanding(drainOf[token := d], alive + {token}, e)| ==
      |Outstanding(drainOf, alive, e)| + if d == e then 1 else 0
  {
    var out, out' := Outstanding(drainOf, alive, e), Outstanding(drainOf[token := d], alive + {token}, e);
    if d == e {
      assert token !in out && out' == out + {token};
    } else {
      assert out' == out;
    }
  }

  lemma CountAttach(
    n: nat, admitting: map<Tid, Drain>, drainOf: map<Token, Drain>, alive: set<Token>, th: Tid, token: Token, e: Drain)
    requires CountIs(n, admitting, drainOf, alive, e) && th in admitting && token !in drainOf
    ensures CountIs(n, admitting - {th}, drainOf[token := admitting[th]], alive + {token}, e)
  {
    AdmissionAttached(admitting, th, e);
    TokenAttached(drainOf, alive, token, admitting[th], e);
  }

  lemma CountRelease(
    n: nat, admitting: map<Tid, Drain>, drainOf: map<Token, Drain>, alive: set<Token>, token: Token, e: Drain)
    requires CountIs(n, admitting, drainOf, alive, e) && token in drainOf && token in alive
    ensures drainOf[token] == e ==> n > 0
    ensures CountIs(if drainOf[token] == e && n > 0 then n - 1 else n, admitting, drainOf, alive - {token}, e)
  {
    assert Outstanding(drainOf, alive - {token}, e) ==
      Outstanding(drainOf, alive, e) - (if drainOf[token] == e then {token} else {});
    assert drainOf[token] == e ==> token in Outstanding(drainOf, alive, e);
  }

  lemma AdmitKeeps(st: State, th: Tid, d: Drain)
    requires Inv(st) && Enabled(st, Admit(th, d))
    ensures Inv(Apply(st, Admit(th, d)))
  {
    var st' := Apply(st, Admit(th, d));
    forall e | e in st'.drains
      ensures CountIs(st'.drains[e].inFlight, st'.admitting, st'.drainOf, Alive(st'), e)
    {
      CountAdmit(st.drains[e].inFlight, st.admitting, st.drainOf, Alive(st), d, th, e);
    }
  }

  /** The attached packet adds its own fresh token to what is alive, and nothing else. */
  lemma AttachAlive(st: State, th: Tid, base: Option<Slot>, to: Slot, token: Token)
    requires Sound(st) && Enabled(st, Attach(th, base, to, token))
    ensures
      var st' := Apply(st, Attach(th, base, to, token));
      Held(st'.slots) == Held(st.slots) + {token} && token !in Alive(st)
  {
    var st' := Apply(st, Attach(th, base, to, token));
    BaseIsLive(st, base);
    var p := Base(st, base);
    assert AllTokens(st'.slots[to]) == AllTokens(p) + {token};
    HeldAdd(st.slots, to, st'.slots[to]);
  }

  lemma AttachCounts(st: State, th: Tid, base: Option<Slot>, to: Slot, token: Token)
    requires Counted(st) && Sound(st) && Enabled(st, Attach(th, base, to, token))
    ensures Counted(Apply(st, Attach(th, base, to, token)))
  {
    AttachAlive(st, th, base, to, token);
    AllCountAttach(st.drains, st.admitting, st.drainOf, Alive(st), th, token);
    AttachMoves(st, th, base, to, token);
  }

  lemma AttachMoves(st: State, th: Tid, base: Option<Slot>, to: Slot, token: Token)
    requires Enabled(st, Attach(th, base, to, token))
    requires Held(Apply(st, Attach(th, base, to, token)).slots) == Held(st.slots) + {token}
    ensures
      var st' := Apply(st, Attach(th, base, to, token));
      && st'.drains == st.drains && st'.admitting == st.admitting - {th}
      && st'.drainOf == st.drainOf[token := st.admitting[th]] && Alive(st') == Alive(st) + {token}
  {
  }

  ghost predicate AllCount(
    drains: map<Drain, DrainState>, admitting: map<Tid, Drain>, drainOf: map<Token, Drain>, alive: set<Token>)
  {
    forall d :: d in drains ==> CountIs(drains[d].inFlight, admitting, drainOf, alive, d)
  }

  lemma AllCountAttach(
    drains: map<Drain, DrainState>, admitting: map<Tid, Drain>, drainOf: map<Token, Drain>, alive: set<Token>,
    th: Tid, token: Token)
    requires AllCount(drains, admitting, drainOf, alive) && th in admitting && token !in drainOf
    ensures AllCount(drains, admitting - {th}, drainOf[token := admitting[th]], alive + {token})
  {
    forall e | e in drains
      ensures CountIs(drains[e].inFlight, admitting - {th}, drainOf[token := admitting[th]], alive + {token}, e)
    {
      CountAttach(drains[e].inFlight, admitting, drainOf, alive, th, token, e);
    }
  }

  lemma AttachKeeps(st: State, th: Tid, base: Option<Slot>, to: Slot, token: Token)
    requires Inv(st) && Enabled(st, Attach(th, base, to, token))
    ensures Inv(Apply(st, Attach(th, base, to, token)))
  {
    AttachCounts(st, th, base, to, token);
    AttachIsSound(st, th, base, to, token);
  }

  lemma AttachIsSound(st: State, th: Tid, base: Option<Slot>, to: Slot, token: Token)
    requires Sound(st) && Enabled(st, Attach(th, base, to, token))
    ensures Sound(Apply(st, Attach(th, base, to, token)))
  {
    AttachAlive(st, th, base, to, token);
  }

  /** Dropping the last copy moves its tokens from held to dying; the count does not change yet. */
  lemma DropKeeps(st: State, slot: Slot)
    requires Inv(st) && Enabled(st, Drop(slot))
    ensures Inv(Apply(st, Drop(slot)))
  {
    var st' := Apply(st, Drop(slot));
    HeldDrop(st.slots, slot);
    assert Alive(st') == Alive(st);
  }

  lemma ReleaseKeeps(st: State, token: Token)
    requires Inv(st) && Enabled(st, Release(token))
    ensures Inv(Apply(st, Release(token)))
  {
    var st' := Apply(st, Release(token));
    assert Alive(st') == Alive(st) - {token};
    forall e | e in st'.drains
      ensures CountIs(st'.drains[e].inFlight, st'.admitting, st'.drainOf, Alive(st'), e)
    {
      CountRelease(st.drains[e].inFlight, st.admitting, st.drainOf, Alive(st), token, e);
    }
  }

  lemma NewSourceKeeps(st: State, d: Drain)
    requires Inv(st) && Enabled(st, NewSource(d))
    ensures Inv(Apply(st, NewSource(d)))
  {
    assert Outstanding(st.drainOf, Alive(st), d) == {} && Admissions(st.admitting, d) == {};
    assert Alive(Apply(st, NewSource(d))) == Alive(st);
  }

  /** Control steps touch only whether a drain accepts and whether it is gone. */
  lemma CountsUnchanged(st: State, st': State)
    requires Counted(st) && Sound(st)
    requires st'.admitting == st.admitting && st'.drainOf == st.drainOf && st'.slots == st.slots
    requires st'.dying == st.dying
    requires st'.drains.Keys == st.drains.Keys
    requires forall d :: d in st.drains ==> st'.drains[d].inFlight == st.drains[d].inFlight
    ensures Counted(st') && Sound(st')
  {
    assert Alive(st') == Alive(st);
    forall e | e in st'.drains
      ensures CountIs(st'.drains[e].inFlight, st'.admitting, st'.drainOf, Alive(st'), e)
    {
      assert CountIs(st.drains[e].inFlight, st.admitting, st.drainOf, Alive(st), e);
    }
  }

  lemma StepKeepsRemoval(st: State, step: Step)
    requires Removal(st) && Enabled(st, step)
    requires step.RemoveBegin? || step.RemoveSucceed? || step.RemoveTimeout? || step.Restart?
    ensures Removal(Apply(st, step))
  {
  }

  lemma ControlKeeps(st: State, step: Step)
    requires Inv(st) && Enabled(st, step)
    requires step.RemoveBegin? || step.RemoveSucceed? || step.RemoveTimeout? || step.Restart?
    ensures Inv(Apply(st, step))
  {
    StepKeepsRemoval(st, step);
    ControlKeepsCounts(st, step);
  }

  lemma ControlKeepsCounts(st: State, step: Step)
    requires Counted(st) && Sound(st) && Enabled(st, step)
    requires step.RemoveBegin? || step.RemoveSucceed? || step.RemoveTimeout? || step.Restart?
    ensures Counted(Apply(st, step)) && Sound(Apply(st, step))
  {
    ControlTouchesOnlyDrains(st, step);
    CountsUnchanged(st, Apply(st, step));
  }

  lemma ControlTouchesOnlyDrains(st: State, step: Step)
    requires Enabled(st, step)
    requires step.RemoveBegin? || step.RemoveSucceed? || step.RemoveTimeout? || step.Restart?
    ensures
      var st' := Apply(st, step);
      && st'.admitting == st.admitting && st'.drainOf == st.drainOf && st'.slots == st.slots && st'.dying == st.dying
      && st'.drains.Keys == st.drains.Keys
      && (forall d :: d in st.drains ==> st'.drains[d].inFlight == st.drains[d].inFlight)
  {
  }

  lemma StepKeepsInv(st: State, step: Step)
    requires Inv(st) && Enabled(st, step)
    ensures Inv(Apply(st, step))
  {
    match step
    case NewSource(d) => NewSourceKeeps(st, d);
    case Admit(th, d) => AdmitKeeps(st, th, d);
    case Attach(th, base, to, token) => AttachKeeps(st, th, base, to, token);
    case Copy(from, to) => PacketFromLive(st, to, st.slots[from]);
    case Emit(inputs, base, to, kept) => EmitKeeps(st, inputs, base, to, kept);
    case Batch(items, to) => BatchKeeps(st, items, to);
    case Unbatch(from, i, to) => UnbatchKeeps(st, from, i, to);
    case Drop(slot) => DropKeeps(st, slot);
    case Release(token) => ReleaseKeeps(st, token);
    case _ => ControlKeeps(st, step);
  }

  lemma {:induction false} RunKeepsInv(run: seq<State>, steps: seq<Step>, k: nat)
    requires IsRun(run, steps) && k < |run|
    ensures Inv(run[k])
  {
    if k > 0 {
      RunKeepsInv(run, steps, k - 1);
      StepKeepsInv(run[k - 1], steps[k - 1]);
    }
  }

  // ---------------------------------------------------------------------------
  // Data derived from admitted packets
  // ---------------------------------------------------------------------------

  /** A node that emits data it kept emits it with a packet that still holds the token. */
  ghost predicate Carries(st: State, step: Step) {
    step.Emit? ==> step.kept <= Emitted(st, step.inputs, step.base, step.kept).tokens
  }

  ghost predicate AllCarry(run: seq<State>, steps: seq<Step>) {
    |steps| <= |run| && forall i {:trigger steps[i]} :: 0 <= i < |steps| ==> Carries(run[i], steps[i])
  }

  lemma BaseIsCovered(st: State, base: Option<Slot>)
    requires AllCovered(st)
    ensures Covered(Base(st, base))
  {
  }

  lemma EmittedIsCoveredIff(st: State, inputs: set<Slot>, base: Option<Slot>, kept: set<Token>)
    requires AllCovered(st)
    ensures Covered(Emitted(st, inputs, base, kept)) <==> kept <= Emitted(st, inputs, base, kept).tokens
  {
    BaseIsCovered(st, base);
    forall t | t in InheritedOrigins(st, inputs)
      ensures t in Inherited(st, inputs)
    {
      var s :| s in inputs && s in st.slots && t in st.slots[s].origins;
      assert Covered(st.slots[s]);
    }
  }

  lemma BatchStaysCovered(st: State, items: seq<Slot>)
    requires AllCovered(st)
    ensures Covered(BatchPacket(Gathered(st, items)))
  {
    forall i | 0 <= i < |items|
      ensures Covered(Gathered(st, items)[i])
    {
      BaseIsCovered(st, Some(items[i]));
    }
    BatchIsCovered(Gathered(st, items));
  }

  lemma StepKeepsCovered(st: State, step: Step)
    requires AllCovered(st) && Enabled(st, step) && Carries(st, step)
    ensures AllCovered(Apply(st, step))
  {
    match step
    case Attach(th, base, to, token) => BaseIsCovered(st, base);
    case Emit(inputs, base, to, kept) => EmittedIsCoveredIff(st, inputs, base, kept);
    case Batch(items, to) => BatchStaysCovered(st, items);
    case Unbatch(from, i, to) => assert Covered(st.slots[from]);
    case _ =>
  }

  lemma {:induction false} RunKeepsCovered(run: seq<State>, steps: seq<Step>, k: nat)
    requires IsRun(run, steps) && AllCarry(run, steps) && k < |run|
    ensures AllCovered(run[k])
  {
    if k > 0 {
      RunKeepsCovered(run, steps, k - 1);
      StepKeepsCovered(run[k - 1], steps[k - 1]);
    }
  }

  // ---------------------------------------------------------------------------
  // Main results
  // ---------------------------------------------------------------------------

  /** The in-flight count is the admissions in progress plus the tokens still outstanding, at every moment. */
  lemma InFlightIsExact(run: seq<State>, steps: seq<Step>, k: nat, d: Drain)
    requires IsRun(run, steps) && k < |run| && d in run[k].drains
    ensures run[k].drains[d].inFlight == |Admissions(run[k].admitting, d)| +
      |Outstanding(run[k].drainOf, Alive(run[k]), d)|
  {
    RunKeepsInv(run, steps, k);
  }

  /** A packet, or a packet inside it, that carries or derives from token `t`. */
  predicate Mentions(p: Packet, t: Token)
    decreases p
  {
    t in p.tokens || t in p.origins || exists i :: 0 <= i < |p.items| && Mentions(p.items[i], t)
  }

  lemma {:induction false} MentionsAreTokens(p: Packet, t: Token)
    requires Covered(p) && Mentions(p, t)
    ensures t in AllTokens(p)
    decreases p
  {
    if t !in p.tokens && t !in p.origins {
      var i :| 0 <= i < |p.items| && Mentions(p.items[i], t);
      MentionsAreTokens(p.items[i], t);
      ItemTokensMeaning(p.items, t);
    }
  }

  /**
    Once a source's removal has been reported, and for the rest of the run, no packet anywhere carries one of its
    tokens, no admission is in progress, and none can begin. Nor does any packet derive from one, as long as nodes emit
    what they kept together with its token.
    */
  lemma RemovalIsABarrier(run: seq<State>, steps: seq<Step>, i: nat, j: nat, d: Drain)
    requires IsRun(run, steps) && i <= j < |run| && IsRemoved(run[i], d)
    ensures d in run[j].drains && !run[j].drains[d].accepting
    ensures Admissions(run[j].admitting, d) == {}
    ensures forall s, t :: s in run[j].slots && t in run[j].drainOf && run[j].drainOf[t] == d ==>
      t !in AllTokens(run[j].slots[s])
    ensures AllCarry(run, steps) ==>
      forall s, t :: s in run[j].slots && t in run[j].drainOf && run[j].drainOf[t] == d ==>
        !Mentions(run[j].slots[s], t)
    ensures forall th :: !Enabled(run[j], Admit(th, d))
  {
    RemovedStays(run, steps, i, j, d);
    RunKeepsInv(run, steps, j);
    NothingOutstanding(run[j], d);
    if AllCarry(run, steps) {
      RunKeepsCovered(run, steps, j);
      NothingMentioned(run[j], d);
    }
  }

  lemma NothingOutstanding(st: State, d: Drain)
    requires Inv(st) && IsRemoved(st, d)
    ensures Admissions(st.admitting, d) == {}
    ensures forall s, t :: s in st.slots && t in st.drainOf && st.drainOf[t] == d ==> t !in AllTokens(st.slots[s])
  {
    assert CountIs(0, st.admitting, st.drainOf, Alive(st), d);
    assert Outstanding(st.drainOf, Alive(st), d) == {};
    forall s, t | s in st.slots && t in st.drainOf && st.drainOf[t] == d
      ensures t !in AllTokens(st.slots[s])
    {
      assert t !in Outstanding(st.drainOf, Alive(st), d);
    }
  }

  lemma NothingMentioned(st: State, d: Drain)
    requires AllCovered(st)
    requires forall s, t :: s in st.slots && t in st.drainOf && st.drainOf[t] == d ==> t !in AllTokens(st.slots[s])
    ensures forall s, t :: s in st.slots && t in st.drainOf && st.drainOf[t] == d ==> !Mentions(st.slots[s], t)
  {
    forall s, t | s in st.slots && t in st.drainOf && st.drainOf[t] == d
      ensures !Mentions(st.slots[s], t)
    {
      if Mentions(st.slots[s], t) {
        MentionsAreTokens(st.slots[s], t);
      }
    }
  }

  lemma NextInRun(run: seq<State>, steps: seq<Step>, k: nat)
    requires IsRun(run, steps) && k < |steps|
    ensures k + 1 < |run| && Enabled(run[k], steps[k]) && run[k + 1] == Apply(run[k], steps[k])
  {
  }

  ghost predicate IsRemoved(st: State, d: Drain) {
    d in st.drains && st.drains[d].removed
  }

  lemma {:induction false} RemovedStays(run: seq<State>, steps: seq<Step>, i: nat, j: nat, d: Drain)
    requires IsRun(run, steps) && i <= j < |run| && IsRemoved(run[i], d)
    ensures IsRemoved(run[j], d)
  {
    if i < j {
      RemovedStays(run, steps, i, j - 1, d);
      NextInRun(run, steps, j - 1);
      StepKeepsRemoved(run[j - 1], steps[j - 1], d);
    }
  }

  lemma StepKeepsRemoved(st: State, step: Step, d: Drain)
    requires Enabled(st, step) && d in st.drains && st.drains[d].removed
    ensures d in Apply(st, step).drains && Apply(st, step).drains[d].removed
  {
  }

  /**
    In every state of a run whatever was emitted, batched or split from an admitted packet still carries its token, if
    and only if every node that emits data it kept emits it together with the token.
    */
  lemma DerivedDataIsCoveredIff(run: seq<State>, steps: seq<Step>)
    requires IsRun(run, steps)
    ensures (forall k :: 0 <= k < |run| ==> AllCovered(run[k])) <==> AllCarry(run, steps)
  {
    if AllCarry(run, steps) {
      forall k | 0 <= k < |run|
        ensures AllCovered(run[k])
      {
        RunKeepsCovered(run, steps, k);
      }
    }
    if forall k :: 0 <= k < |run| ==> AllCovered(run[k]) {
      forall i | 0 <= i < |steps|
        ensures Carries(run[i], steps[i])
      {
        NextInRun(run, steps, i);
        CoveredCarries(run[i], steps[i], run[i + 1]);
      }
    }
  }

  lemma CoveredCarries(st: State, step: Step, after: State)
    requires Enabled(st, step) && after == Apply(st, step) && AllCovered(after)
    ensures Carries(st, step)
  {
    if step.Emit? {
      assert Covered(after.slots[step.to]);
    }
  }

  /** The deleter's guard never matters: a token being released was counted. */
  lemma ReleaseIsAlwaysCounted(run: seq<State>, steps: seq<Step>, k: nat, token: Token)
    requires IsRun(run, steps) && k < |run| && Enabled(run[k], Release(token))
    ensures run[k].drains[run[k].drainOf[token]].inFlight > 0
  {
    RunKeepsInv(run, steps, k);
    var st := run[k];
    CountRelease(st.drains[st.drainOf[token]].inFlight, st.admitting, st.drainOf, Alive(st), token, st.drainOf[token]);
  }

  /** One step of a run. */
  ghost predicate Leads(st: State, step: Step, after: State) {
    Enabled(st, step) && after == Apply(st, step)
  }

  lemma Extend(run: seq<State>, steps: seq<Step>, step: Step, after: State)
    requires IsRun(run, steps) && Leads(run[|steps|], step, after)
    ensures IsRun(run + [after], steps + [step])
  {
    var longer, more := run + [after], steps + [step];
    forall i | 0 <= i < |more|
      ensures Enabled(longer[i], more[i]) && longer[i + 1] == Apply(longer[i], more[i])
    {
      if i < |steps| {
        NextInRun(run, steps, i);
        assert more[i] == steps[i] && longer[i] == run[i] && longer[i + 1] == run[i + 1];
      }
    }
  }

  const ADMITTED := State(map[0 := DrainState(true, 1, false)], map[], map[], map[0 := 0], {}, None)

  /** The source's one packet is in slot 0. */
  function Present(token: Token): State {
    State(
      map[0 := DrainState(true, 1, false)], map[token := 0], map[0 := Packet({token}, {token}, [])], map[], {}, None)
  }

  /** The packet has gone and its token is being released. */
  function Leaving(token: Token): State {
    State(map[0 := DrainState(true, 1, false)], map[token := 0], map[], map[], {token}, None)
  }

  /** Nothing of the source is left, and its removal is or is not under way or done. */
  function Empty(token: Token, d: DrainState, removing: Option<Drain>): State {
    State(map[0 := d], map[token := 0], map[], map[], {}, removing)
  }

  lemma SourceAdmits()
    ensures Leads(INITIAL, NewSource(0), INITIAL.(drains := map[0 := DrainState(true, 0, false)]))
    ensures Leads(INITIAL.(drains := map[0 := DrainState(true, 0, false)]), Admit(0, 0), ADMITTED)
  {
  }

  lemma PacketArrives(token: Token)
    ensures Leads(ADMITTED, Attach(0, None, 0, token), Present(token))
  {
    var after := Apply(ADMITTED, Attach(0, None, 0, token));
    assert ADMITTED.admitting - {0} == map[];
    assert BARE.tokens + {token} == {token} && BARE.origins + {token} == {token};
    assert after.slots[0] == Packet({token}, {token}, []);
    assert after.slots == Present(token).slots;
  }

  lemma PacketGoes(token: Token)
    ensures Leads(Present(token), Drop(0), Leaving(token))
  {
    var slots := Present(token).slots;
    assert slots - {0} == map[] && Held(map[]) == {};
    assert AllTokens(slots[0]) == {token} + ItemTokens([]);
  }

  lemma TokenIsReleased(token: Token)
    ensures Leads(Leaving(token), Release(token), Empty(token, DrainState(true, 0, false), None))
  {
  }

  lemma SourceIsRemoved(token: Token)
    ensures
      var closing := Empty(token, DrainState(false, 0, false), Some(0));
      && Leads(Empty(token, DrainState(true, 0, false), None), RemoveBegin(0), closing)
      && Leads(closing, RemoveSucceed, Empty(token, DrainState(false, 0, true), None))
  {
  }

  lemma KeptIsEmitted(token: Token, st: State)
    requires st == Empty(token, DrainState(false, 0, true), None)
    ensures Leads(st, Emit({}, None, 0, {token}), st.(slots := map[0 := Packet({}, {token}, [])]))
  {
    assert Inherited(st, {}) == {} && InheritedOrigins(st, {}) == {};
    assert Emitted(st, {}, None, {token}) == Packet({}, {token}, []);
  }

  lemma PacketLived(token: Token) returns (run: seq<State>, steps: seq<Step>)
    ensures IsRun(run, steps) && |run| == 5 && run[4] == Leaving(token)
  {
    run, steps := [INITIAL], [];
    var added := INITIAL.(drains := map[0 := DrainState(true, 0, false)]);
    SourceAdmits();
    Extend(run, steps, NewSource(0), added);
    run, steps := run + [added], steps + [NewSource(0)];
    Extend(run, steps, Admit(0, 0), ADMITTED);
    run, steps := run + [ADMITTED], steps + [Admit(0, 0)];
    PacketArrives(token);
    Extend(run, steps, Attach(0, None, 0, token), Present(token));
    run, steps := run + [Present(token)], steps + [Attach(0, None, 0, token)];
    PacketGoes(token);
    Extend(run, steps, Drop(0), Leaving(token));
    run, steps := run + [Leaving(token)], steps + [Drop(0)];
  }

  lemma SourceGone(token: Token) returns (run: seq<State>, steps: seq<Step>)
    ensures IsRun(run, steps) && |run| == 8 && run[7] == Empty(token, DrainState(false, 0, true), None)
  {
    run, steps := PacketLived(token);
    var drained := Empty(token, DrainState(true, 0, false), None);
    var closing := Empty(token, DrainState(false, 0, false), Some(0));
    var gone := Empty(token, DrainState(false, 0, true), None);
    TokenIsReleased(token);
    Extend(run, steps, Release(token), drained);
    run, steps := run + [drained], steps + [Release(token)];
    SourceIsRemoved(token);
    Extend(run, steps, RemoveBegin(0), closing);
    run, steps := run + [closing], steps + [RemoveBegin(0)];
    Extend(run, steps, RemoveSucceed, gone);
    run, steps := run + [gone], steps + [RemoveSucceed];
  }

  /** The condition is needed: a node that copies data out of a packet can emit it after the source has been removed. */
  lemma KeptDataPassesTheBarrier(token: Token) returns (run: seq<State>, steps: seq<Step>)
    ensures IsRun(run, steps) && |run| == 9
    ensures IsRemoved(run[7], 0) && token in run[8].drainOf && run[8].drainOf[token] == 0
    ensures 0 in run[8].slots && Mentions(run[8].slots[0], token)
  {
    run, steps := SourceGone(token);
    var after := run[7].(slots := map[0 := Packet({}, {token}, [])]);
    KeptIsEmitted(token, run[7]);
    Extend(run, steps, Emit({}, None, 0, {token}), after);
    run, steps := run + [after], steps + [Emit({}, None, 0, {token})];
  }
}
