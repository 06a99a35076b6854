/** The ring buffer that cuts a clip around each trigger: some packets before it and some after. */
module ClipRecorders {
  import opened Basics
  import opened Packets
  import opened Sequences

  datatype Config = Config(capacity: nat, post: nat)

  ghost predicate Configured(c: Config) {
    c.capacity > 0
  }

  /** What arrives: a trigger, an encoded packet, an event, or a packet that is not an encoded one. */
  datatype Input = Trigger | Encoded(packet: Packet) | EventOnly | NotEncoded

  datatype RecorderState = RecorderState(ring: seq<Packet>, clip: seq<Packet>, remaining: nat, recording: bool)

  const IDLE := RecorderState([], [], 0, false)

  datatype Outcome = Outcome(state: RecorderState, clips: seq<seq<Packet>>, ok: bool)

  /** Finish a clip; an empty one is not emitted. */
  function Emitted(s: RecorderState): Outcome {
    Outcome(s.(clip := [], recording := false), if s.clip == [] then [] else [s.clip], true)
  }

  function Pushed(c: Config, ring: seq<Packet>, p: Packet): seq<Packet> {
    if |ring| == c.capacity && ring != [] then ring[1..] + [p] else ring + [p]
  }

  function OnPacket(c: Config, s: RecorderState, p: Packet): Outcome {
    var s := s.(ring := Pushed(c, s.ring, p));
    if !s.recording then Outcome(s, [], true)
    else
      var left := if s.remaining != 0 then s.remaining - 1 else 0;
      var s := s.(clip := s.clip + [p], remaining := left);
      if left == 0 then Emitted(s) else Outcome(s, [], true)
  }

  function OnTrigger(c: Config, s: RecorderState): Outcome {
    var s := s.(clip := s.ring, remaining := c.post, recording := c.post != 0);
    if s.recording then Outcome(s, [], true) else Emitted(s)
  }

  function OnInput(c: Config, s: RecorderState, input: Input): Outcome {
    match input
    case Trigger => OnTrigger(c, s)
    case Encoded(p) => OnPacket(c, s, p)
    case EventOnly => Outcome(s, [], true)
    case NotEncoded => Outcome(s, [], false)
  }

  class ClipRecorder {
    const config: Config
    var ring: seq<Packet>
    var clip: seq<Packet>
    var remaining: nat
    var recording: bool

    constructor (config: Config)
      ensures this.config == config && View() == IDLE
    {
      this.config := config;
      ring, clip, remaining, recording := [], [], 0, false;
    }

    ghost function View(): RecorderState
      reads this
    {
      RecorderState(ring, clip, remaining, recording)
    }

    /** Hand over the clip unless it is empty, numbering its packets by position. */
    method EmitClip() returns (clips: seq<seq<Packet>>)
      modifies this`clip
      ensures clip == []
      ensures clips == if old(clip) == [] then [] else [old(clip)]
    {
      var items: seq<Packet> := [];
      for i := 0 to |clip|
        invariant items == clip[..i]
      {
        items := items + [clip[i]];
      }
      assert items == clip;
      clip := [];
      clips := if items == [] then [] else [items];
    }

    method Process(input: Input) returns (clips: seq<seq<Packet>>, ok: bool)
      requires Configured(config)
      modifies this
      ensures Outcome(View(), clips, ok) == OnInput(config, old(View()), input)
    {
      clips, ok := [], true;
      match input {
        case Trigger =>
          clip, remaining, recording := ring, config.post, config.post != 0;
          if !recording {
            clips := EmitClip();
          }
        case EventOnly =>
        case NotEncoded =>
          ok := false;
        case Encoded(p) =>
          if |ring| == config.capacity {
            ring := ring[1..];
          }
          ring := ring + [p];
          if recording {
            clip := clip + [p];
            if remaining != 0 {
              remaining := remaining - 1;
            }
            if remaining == 0 {
              recording := false;
              clips := EmitClip();
            }
          }
      }
    }
  }

  // ---------------------------------------------------------------------------
  // The clips, from the packet history and the trigger positions alone
  // ---------------------------------------------------------------------------

  /** Up to `capacity` packets before position `t` and the `post` packets after it. */
  function Window(c: Config, history: seq<Packet>, t: nat): seq<Packet>
    requires t + c.post <= |history|
  {
    history[t - Min(c.capacity, t)..t + c.post]
  }

  /** Triggers fall at ascending positions, none after `end`. */
  ghost predicate Positions(triggers: seq<nat>, end: nat) {
    && (forall i, j :: 0 <= i < j < |triggers| ==> triggers[i] <= triggers[j])
    && (forall i :: 0 <= i < |triggers| ==> triggers[i] <= end)
  }

  /**
    One clip per trigger that is followed by `post` packets before the next trigger, or before `end` for the last one;
    a window with nothing in it gives no clip.
    */
  ghost function Clips(c: Config, history: seq<Packet>, triggers: seq<nat>, end: nat): seq<seq<Packet>>
    requires Positions(triggers, end) && end <= |history|
    decreases |triggers|
  {
    if triggers == [] then []
    else
      var t := Final(triggers);
      Clips(c, history, Front(triggers), t) +
      if end - t >= c.post && Window(c, history, t) != [] then [Window(c, history, t)] else []
  }

  /** A clip depends only on the history up to the point where it is complete. */
  lemma {:induction false} ClipsAreStable(c: Config, history: seq<Packet>, triggers: seq<nat>, end: nat, p: Packet)
    requires Positions(triggers, end) && end <= |history|
    ensures Clips(c, history + [p], triggers, end) == Clips(c, history, triggers, end)
    decreases |triggers|
  {
    if triggers != [] {
      var t := Final(triggers);
      ClipsAreStable(c, history, Front(triggers), t, p);
      if end - t >= c.post {
        assert Window(c, history + [p], t) == Window(c, history, t);
      }
    }
  }

  // ---------------------------------------------------------------------------
  // Runs
  // ---------------------------------------------------------------------------

  datatype Run = Run(state: RecorderState, history: seq<Packet>, triggers: seq<nat>, clips: seq<seq<Packet>>)

  const FRESH := Run(IDLE, [], [], [])

  function Apply(c: Config, r: Run, input: Input): Run {
    var o := OnInput(c, r.state, input);
    Run(o.state,
        if input.Encoded? then r.history + [input.packet] else r.history,
        if input.Trigger? then r.triggers + [|r.history|] else r.triggers,
        r.clips + o.clips)
  }

  function After(c: Config, inputs: seq<Input>): Run {
    if inputs == [] then FRESH else Apply(c, After(c, Front(inputs)), Final(inputs))
  }

  function Tail(c: Config, history: seq<Packet>, t: nat): seq<Packet>
    requires t <= |history|
  {
    history[t - Min(c.capacity, t)..]
  }

  ghost predicate RingHeld(c: Config, r: Run) {
    r.state.ring == Tail(c, r.history, |r.history|)
  }

  /** While recording, the clip is the open window of the last trigger; otherwise that window is complete. */
  ghost predicate WindowHeld(c: Config, r: Run) {
    && Positions(r.triggers, |r.history|)
    && (r.state.recording ==>
          && r.triggers != []
          && |r.history| - Final(r.triggers) < c.post
          && r.state.remaining == c.post - (|r.history| - Final(r.triggers))
          && r.state.clip == Tail(c, r.history, Final(r.triggers)))
    && (!r.state.recording && r.triggers != [] ==> |r.history| - Final(r.triggers) >= c.post)
  }

  ghost predicate ClipsCut(c: Config, r: Run) {
    Positions(r.triggers, |r.history|) && r.clips == Clips(c, r.history, r.triggers, |r.history|)
  }

  lemma RingStep(c: Config, history: seq<Packet>, p: Packet)
    requires Configured(c)
    ensures Pushed(c, Tail(c, history, |history|), p) == Tail(c, history + [p], |history| + 1)
  {
  }

  lemma PacketKeepsWindow(c: Config, r: Run, p: Packet)
    requires Configured(c) && WindowHeld(c, r)
    ensures WindowHeld(c, Apply(c, r, Encoded(p)))
  {
    if r.state.recording {
      var t := Final(r.triggers);
      assert Tail(c, r.history + [p], t) == Tail(c, r.history, t) + [p];
    }
  }

  lemma PacketKeepsClips(c: Config, r: Run, p: Packet)
    requires Configured(c) && WindowHeld(c, r) && ClipsCut(c, r)
    ensures ClipsCut(c, Apply(c, r, Encoded(p)))
  {
    var grown, n := r.history + [p], |r.history|;
    ClipsAreStable(c, r.history, r.triggers, n, p);
    assert r.clips + [] == r.clips;
    if r.triggers != [] {
      var t := Final(r.triggers);
      var earlier := Clips(c, grown, Front(r.triggers), t);
      assert earlier + [] == earlier;
      if r.state.recording {
        assert Tail(c, grown, t) == Tail(c, r.history, t) + [p];
        if n + 1 - t == c.post {
          assert Window(c, grown, t) == Tail(c, grown, t);
        }
      }
    }
  }

  lemma TriggerKeepsWindow(c: Config, r: Run)
    requires RingHeld(c, r) && WindowHeld(c, r)
    ensures WindowHeld(c, Apply(c, r, Trigger))
  {
    assert Final(r.triggers + [|r.history|]) == |r.history|;
  }

  lemma TriggerKeepsClips(c: Config, r: Run)
    requires RingHeld(c, r) && ClipsCut(c, r)
    ensures ClipsCut(c, Apply(c, r, Trigger))
  {
    var n := |r.history|;
    TriggerClips(c, r.history, r.triggers);
    if c.post == 0 {
      assert Window(c, r.history, n) == Tail(c, r.history, n);
    }
  }

  /** A trigger at the end of the history adds a clip at once exactly when nothing is to follow it. */
  lemma TriggerClips(c: Config, history: seq<Packet>, triggers: seq<nat>)
    requires Positions(triggers, |history|)
    ensures
      var n := |history|;
      && Positions(triggers + [n], n)
      && Clips(c, history, triggers + [n], n) == Clips(c, history, triggers, n) +
           if c.post == 0 && Window(c, history, n) != [] then [Window(c, history, n)] else []
  {
    assert Front(triggers + [|history|]) == triggers && Final(triggers + [|history|]) == |history|;
  }

  ghost predicate Inv(c: Config, r: Run) {
    RingHeld(c, r) && WindowHeld(c, r) && ClipsCut(c, r)
  }

  lemma PacketKeeps(c: Config, r: Run, p: Packet)
    requires Configured(c) && Inv(c, r)
    ensures Inv(c, Apply(c, r, Encoded(p)))
  {
    RingStep(c, r.history, p);
    PacketKeepsWindow(c, r, p);
    PacketKeepsClips(c, r, p);
  }

  lemma TriggerKeeps(c: Config, r: Run)
    requires Inv(c, r)
    ensures Inv(c, Apply(c, r, Trigger))
  {
    TriggerKeepsWindow(c, r);
    TriggerKeepsClips(c, r);
  }

  lemma StepKeeps(c: Config, r: Run, input: Input)
    requires Configured(c) && Inv(c, r)
    ensures Inv(c, Apply(c, r, input))
  {
    match input {
      case Trigger => TriggerKeeps(c, r);
      case Encoded(p) => PacketKeeps(c, r, p);
      case _ =>
        assert r.clips + [] == r.clips;
        assert Apply(c, r, input) == r;
    }
  }

  lemma {:induction false} RunKeeps(c: Config, inputs: seq<Input>)
    requires Configured(c)
    ensures Inv(c, After(c, inputs))
  {
    if inputs != [] {
      RunKeeps(c, Front(inputs));
      StepKeeps(c, After(c, Front(inputs)), Final(inputs));
    }
  }

  /**
    Whatever arrives in whatever order, the clips are exactly the complete, non-empty windows around the triggers,
    in trigger order; a trigger that comes while the previous window is open gives that window up.
    */
  lemma ClipsAreTheTriggerWindows(c: Config, inputs: seq<Input>)
    requires Configured(c)
    ensures
      var r := After(c, inputs);
      Positions(r.triggers, |r.history|) && r.clips == Clips(c, r.history, r.triggers, |r.history|)
  {
    RunKeeps(c, inputs);
  }

  /** Trigger `i` is followed by enough packets before the next one, or before the end, and its window is not empty. */
  predicate Completes(c: Config, triggers: seq<nat>, end: nat, i: nat)
    requires i < |triggers|
  {
    var next := if i + 1 < |triggers| then triggers[i + 1] else end;
    next - triggers[i] >= c.post && triggers[i] + c.post > 0
  }

  lemma {:induction false} ClipsPerTrigger(c: Config, history: seq<Packet>, triggers: seq<nat>, end: nat)
    requires Configured(c) && Positions(triggers, end) && end <= |history|
    ensures |Clips(c, history, triggers, end)| <= |triggers|
    ensures
      |Clips(c, history, triggers, end)| == |triggers|
      <==> forall i :: 0 <= i < |triggers| ==> Completes(c, triggers, end, i)
    decreases |triggers|
  {
    if triggers != [] {
      var n, t := |triggers| - 1, Final(triggers);
      ClipsPerTrigger(c, history, Front(triggers), t);
      assert forall i :: 0 <= i < n ==> (Completes(c, triggers, end, i) <==> Completes(c, Front(triggers), t, i));
      assert Completes(c, triggers, end, n) <==> end - t >= c.post && Window(c, history, t) != [];
    }
  }

  /** Every trigger of a run gives its clip if and only if each is followed by enough packets before the next one. */
  lemma NoClipIsGivenUpIff(c: Config, inputs: seq<Input>)
    requires Configured(c)
    ensures
      var r := After(c, inputs);
      && |r.clips| <= |r.triggers|
      && (|r.clips| == |r.triggers| <==> forall i :: 0 <= i < |r.triggers| ==> Completes(c, r.triggers, |r.history|, i))
  {
    ClipsAreTheTriggerWindows(c, inputs);
    var r := After(c, inputs);
    ClipsPerTrigger(c, r.history, r.triggers, |r.history|);
  }

  lemma AfterAppends(c: Config, inputs: seq<Input>, input: Input)
    ensures After(c, inputs + [input]) == Apply(c, After(c, inputs), input)
  {
    assert Front(inputs + [input]) == inputs;
  }

  lemma ClipIsCutOnce(c: Config, x: Packet, y: Packet)
    requires c == Config(2, 1)
    ensures
      var r1 := Apply(c, FRESH, Encoded(x));
      var r3 := Apply(c, Apply(c, r1, Trigger), Trigger);
      Apply(c, r3, Encoded(y)).triggers == [1, 1] && Apply(c, r3, Encoded(y)).clips == [[x, y]]
  {
    var r1 := Apply(c, FRESH, Encoded(x));
    assert r1 == Run(RecorderState([x], [], 0, false), [x], [], []);
    var r3 := Apply(c, Apply(c, r1, Trigger), Trigger);
    assert r3 == Run(RecorderState([x], [x], 1, true), [x], [1, 1], []);
    assert [] + [[x, y]] == [[x, y]] && [x] + [y] == [x, y];
  }

  /** Two triggers, one clip: the second trigger comes while the first one's packet is still to come. */
  lemma SecondTriggerGivesUpClip(x: Packet, y: Packet)
    ensures
      var r := After(Config(2, 1), [Encoded(x), Trigger, Trigger, Encoded(y)]);
      r.triggers == [1, 1] && r.clips == [[x, y]]
  {
    var c := Config(2, 1);
    AfterAppends(c, [], Encoded(x));
    AfterAppends(c, [Encoded(x)], Trigger);
    AfterAppends(c, [Encoded(x), Trigger], Trigger);
    AfterAppends(c, [Encoded(x), Trigger, Trigger], Encoded(y));
    assert [] + [Encoded(x)] == [Encoded(x)] && [Encoded(x)] + [Trigger] == [Encoded(x), Trigger];
    assert [Encoded(x), Trigger] + [Trigger] == [Encoded(x), Trigger, Trigger];
    assert [Encoded(x), Trigger, Trigger] + [Encoded(y)] == [Encoded(x), Trigger, Trigger, Encoded(y)];
    ClipIsCutOnce(c, x, y);
  }
}
