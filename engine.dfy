/** The engine as a whole: the click handler and the scroll loop acting on
    one shared configuration object, driven by an interleaving of button
    events and loop iterations (polls of the pointer position). */
module Engine {
  import opened Variants
  import opened Config
  import opened Gesture
  import opened Transform

  /** What happens next: a button event from the listener thread, or one
      iteration of the scroll loop that finds the pointer at `pos`. */
  datatype Event = Press(x: real, y: real, button: Button, pressed: bool) | Poll(pos: Point)

  /** What the engine emits: a notification to the overlay, a direction
      notification, or a scroll request to the host. */
  datatype Output = Overlay(feedback: Feedback) | DirectionChanged(dir: Direction) | Scrolled(delta: Vector)

  /** The gesture fields of the configuration and the loop variable last_dir. */
  datatype EngineState = EngineState(gesture: GestureState, lastDir: Direction)

  function Scrolls(scroll: Option<Vector>): seq<Output>
  {
    if scroll.Some? then [Scrolled(scroll.value)] else []
  }

  /** The overlay notifications among the outputs, in order. */
  function Overlays(outs: seq<Output>): seq<Feedback>
  {
    if outs == [] then []
    else (if outs[0].Overlay? then [outs[0].feedback] else []) + Overlays(outs[1..])
  }

  /** The direction notifications among the outputs, in order. */
  function Directions(outs: seq<Output>): seq<Direction>
  {
    if outs == [] then []
    else (if outs[0].DirectionChanged? then [outs[0].dir] else []) + Directions(outs[1..])
  }

  /** One event. A button event runs the click handler; a poll runs one
      iteration of the scroll loop with the tunables `t`. */
  function Step(v: Variant, t: Tunables, s: EngineState, e: Event,
                hypot: (real, real) -> real, pow: (real, real) -> real)
    : (r: (EngineState, seq<Output>))
    ensures |r.1| <= 2
    // a button event leaves last_dir alone and emits exactly the click handler's notification
    ensures e.Press? ==>
              var c := Click(v, s.gesture, e.x, e.y, e.button, e.pressed);
              r.0 == EngineState(c.0, s.lastDir) && r.1 == (if c.1.Some? then [Overlay(c.1.value)] else [])
    // a poll never touches the gesture and never notifies the overlay of show or hide
    ensures e.Poll? ==> r.0.gesture == s.gesture && forall i :: 0 <= i < |r.1| ==> !r.1[i].Overlay?
    // an inactive poll emits nothing; the two-axis loop resets last_dir
    ensures e.Poll? && !s.gesture.active ==>
              r.1 == [] && r.0.lastDir == (if v.vertical then s.lastDir else Neutral)
    // a direction is notified first, only when it differs from last_dir, and becomes last_dir
    ensures forall i :: 0 <= i < |r.1| && r.1[i].DirectionChanged? ==>
              i == 0 && r.1[i].dir == r.0.lastDir && r.0.lastDir != s.lastDir
    ensures e.Poll? && s.gesture.active && (r.1 == [] || !r.1[0].DirectionChanged?) ==>
              r.0.lastDir == s.lastDir
  {
    match e
    case Press(x, y, button, pressed) =>
      var c := Click(v, s.gesture, x, y, button, pressed);
      (EngineState(c.0, s.lastDir), if c.1.Some? then [Overlay(c.1.value)] else [])
    case Poll(pos) =>
      if v.vertical then
        var scroll := if s.gesture.active then VerticalEmission(v.k, t, pos.y - s.gesture.origin.y, pow) else None;
        (s, Scrolls(scroll))
      else if !s.gesture.active then
        (EngineState(s.gesture, Neutral), [])
      else
        var d := Displacement(t.enableHorizontal, s.gesture.origin, pos);
        var dist := hypot(d.x, d.y);
        var dir := Classify(d.x, d.y, dist, t.deadZone);
        var notified := if dir != s.lastDir then [DirectionChanged(dir)] else [];
        (EngineState(s.gesture, dir), notified + Scrolls(Emission(v.k, t, d.x, d.y, dist, pow)))
  }

  /** What a poll computes: the vertical copy requests the scroll of the
      vertical displacement while active; the two-axis copies classify the
      displacement, notify a change of direction, then request the scroll. */
  lemma StepPoll(v: Variant, t: Tunables, s: EngineState, pos: Point,
                 hypot: (real, real) -> real, pow: (real, real) -> real)
    ensures var r := Step(v, t, s, Poll(pos), hypot, pow);
            v.vertical ==>
              r == (s, Scrolls(if s.gesture.active then VerticalEmission(v.k, t, pos.y - s.gesture.origin.y, pow)
                               else None))
    ensures var r := Step(v, t, s, Poll(pos), hypot, pow);
            !v.vertical && s.gesture.active ==>
              var d := Displacement(t.enableHorizontal, s.gesture.origin, pos);
              && r.0.lastDir == Classify(d.x, d.y, hypot(d.x, d.y), t.deadZone)
              && r.1 == (if r.0.lastDir != s.lastDir then [DirectionChanged(r.0.lastDir)] else [])
                        + Scrolls(Emission(v.k, t, d.x, d.y, hypot(d.x, d.y), pow))
  {
  }

  /** The state after a sequence of events, and everything emitted on the way. */
  function Trace(v: Variant, t: Tunables, s: EngineState, es: seq<Event>,
                 hypot: (real, real) -> real, pow: (real, real) -> real)
    : (r: (EngineState, seq<Output>))
    ensures |r.1| <= 2 * |es|
    decreases |es|
  {
    if es == [] then (s, [])
    else
      var before := Trace(v, t, s, es[..|es| - 1], hypot, pow);
      var after := Step(v, t, before.0, es[|es| - 1], hypot, pow);
      (after.0, before.1 + after.1)
  }

  /** Delivers one event to `cfg`: a button event to the click handler, a
      poll to one iteration of the scroll loop that last saw `lastDir`.
      Returns the loop's new last_dir and the outputs of the event. */
  method Dispatch(cfg: GlobalConfig, v: Variant, lastDir: Direction, e: Event,
                  hypot: (real, real) -> real, pow: (real, real) -> real)
    returns (nextDir: Direction, stepOuts: seq<Output>)
    modifies cfg`active, cfg`origin
    ensures cfg.Snapshot() == old(cfg.Snapshot())
    ensures (EngineState(GestureState(cfg.active, cfg.origin), nextDir), stepOuts)
            == Step(v, old(cfg.Snapshot()), EngineState(GestureState(old(cfg.active), old(cfg.origin)), lastDir),
                    e, hypot, pow)
  {
    nextDir, stepOuts := lastDir, [];
    match e {
      case Press(x, y, button, pressed) =>
        var feedback := OnClick(cfg, v, x, y, button, pressed);
        if feedback.Some? {
          stepOuts := [Overlay(feedback.value)];
        }
      case Poll(pos) =>
        if v.vertical {
          var scroll := VerticalTick(cfg, v.k, pos, pow);
          stepOuts := Scrolls(scroll);
        } else {
          var notify, scroll;
          nextDir, notify, scroll := Tick(cfg, v.k, lastDir, pos, hypot, pow);
          if notify.Some? {
            stepOuts := [DirectionChanged(notify.value)];
          }
          stepOuts := stepOuts + Scrolls(scroll);
          assert !cfg.active ==> stepOuts == [];
        }
    }
  }

  /** Runs the click handler and the scroll loop on `cfg` for the events in
      order, starting the loop with last_dir neutral. Returns the outputs and
      the final last_dir. */
  method ScrollSession(cfg: GlobalConfig, v: Variant, events: seq<Event>,
                       hypot: (real, real) -> real, pow: (real, real) -> real)
    returns (outs: seq<Output>, lastDir: Direction)
    modifies cfg`active, cfg`origin
    ensures cfg.Snapshot() == old(cfg.Snapshot())
    ensures (EngineState(GestureState(cfg.active, cfg.origin), lastDir), outs)
            == Trace(v, old(cfg.Snapshot()), EngineState(GestureState(old(cfg.active), old(cfg.origin)), Neutral),
                     events, hypot, pow)
  {
    ghost var t := cfg.Snapshot();
    ghost var s0 := EngineState(GestureState(cfg.active, cfg.origin), Neutral);
    outs, lastDir := [], Neutral;
    var i := 0;
    while i < |events|
      invariant 0 <= i <= |events|
      invariant cfg.Snapshot() == t
      invariant (EngineState(GestureState(cfg.active, cfg.origin), lastDir), outs)
                == Trace(v, t, s0, events[..i], hypot, pow)
    {
      assert events[..i + 1][..i] == events[..i];
      var stepOuts;
      lastDir, stepOuts := Dispatch(cfg, v, lastDir, events[i], hypot, pow);
      outs := outs + stepOuts;
      i := i + 1;
    }
    assert events[..|events|] == events;
  }

  // ---------------------------------------------------------------------
  // Properties of whole runs

  lemma {:induction false} OverlaysAppend(a: seq<Output>, b: seq<Output>)
    ensures Overlays(a + b) == Overlays(a) + Overlays(b)
    decreases |a|
  {
    if a == [] {
      assert a + b == b;
    } else {
      var head := if a[0].Overlay? then [a[0].feedback] else [];
      assert (a + b)[0] == a[0];
      assert (a + b)[1..] == a[1..] + b;
      OverlaysAppend(a[1..], b);
      calc {
        Overlays(a + b);
        head + Overlays(a[1..] + b);
        head + (Overlays(a[1..]) + Overlays(b));
        (head + Overlays(a[1..])) + Overlays(b);
        Overlays(a) + Overlays(b);
      }
    }
  }

  lemma {:induction false} DirectionsAppend(a: seq<Output>, b: seq<Output>)
    ensures Directions(a + b) == Directions(a) + Directions(b)
    decreases |a|
  {
    if a == [] {
      assert a + b == b;
    } else {
      var head := if a[0].DirectionChanged? then [a[0].dir] else [];
      assert (a + b)[0] == a[0];
      assert (a + b)[1..] == a[1..] + b;
      DirectionsAppend(a[1..], b);
      calc {
        Directions(a + b);
        head + Directions(a[1..] + b);
        head + (Directions(a[1..]) + Directions(b));
        (head + Directions(a[1..])) + Directions(b);
        Directions(a) + Directions(b);
      }
    }
  }

  lemma {:induction false} OverlaysNone(outs: seq<Output>)
    requires forall i :: 0 <= i < |outs| ==> !outs[i].Overlay?
    ensures Overlays(outs) == []
    decreases |outs|
  {
    if outs != [] {
      OverlaysNone(outs[1..]);
    }
  }

  lemma {:induction false} DirectionsNone(outs: seq<Output>)
    requires forall i :: 0 <= i < |outs| ==> !outs[i].DirectionChanged?
    ensures Directions(outs) == []
    decreases |outs|
  {
    if outs != [] {
      DirectionsNone(outs[1..]);
    }
  }

  /** The outputs of one step: the overlay notifications it emits and the
      direction notifications. */
  lemma StepNotifications(v: Variant, t: Tunables, s: EngineState, e: Event,
                          hypot: (real, real) -> real, pow: (real, real) -> real)
    ensures var r := Step(v, t, s, e, hypot, pow);
            && Overlays(r.1) == (if e.Press? && Click(v, s.gesture, e.x, e.y, e.button, e.pressed).1.Some?
                                 then [Click(v, s.gesture, e.x, e.y, e.button, e.pressed).1.value] else [])
            && Directions(r.1) == (if r.1 != [] && r.1[0].DirectionChanged? then [r.1[0].dir] else [])
  {
    var r := Step(v, t, s, e, hypot, pow);
    if r.1 != [] {
      DirectionsNone(r.1[1..]);
      if e.Press? {
        assert r.1[1..] == [];
      } else {
        OverlaysNone(r.1);
      }
    }
  }

  /** A poll during a gesture either notifies nothing and keeps last_dir, or
      notifies the new last_dir, which differs from the old one. */
  lemma StepDirection(v: Variant, t: Tunables, s: EngineState, e: Event,
                      hypot: (real, real) -> real, pow: (real, real) -> real)
    requires e.Poll? && s.gesture.active
    ensures var r := Step(v, t, s, e, hypot, pow);
            && r.0.gesture == s.gesture
            && (|| (Directions(r.1) == [] && r.0.lastDir == s.lastDir)
                || (Directions(r.1) == [r.0.lastDir] && r.0.lastDir != s.lastDir))
  {
    StepNotifications(v, t, s, e, hypot, pow);
  }

  /** Running two sequences of events one after the other is running their
      concatenation. */
  lemma {:induction false} TraceAppend(v: Variant, t: Tunables, s: EngineState, a: seq<Event>, b: seq<Event>,
                                       hypot: (real, real) -> real, pow: (real, real) -> real)
    ensures var first := Trace(v, t, s, a, hypot, pow);
            var second := Trace(v, t, first.0, b, hypot, pow);
            Trace(v, t, s, a + b, hypot, pow) == (second.0, first.1 + second.1)
    decreases |b|
  {
    if b == [] {
      assert a + b == a;
      assert Trace(v, t, s, a, hypot, pow).1 + [] == Trace(v, t, s, a, hypot, pow).1;
    } else {
      var b' := b[..|b| - 1];
      AppendLast(a, b);
      TraceAppend(v, t, s, a, b', hypot, pow);
      var first := Trace(v, t, s, a, hypot, pow);
      var mid := Trace(v, t, first.0, b', hypot, pow);
      var last := Step(v, t, mid.0, b[|b| - 1], hypot, pow);
      AppendAssoc(first.1, mid.1, last.1);
    }
  }

  lemma AppendLast<T>(a: seq<T>, b: seq<T>)
    requires b != []
    ensures (a + b)[..|a + b| - 1] == a + b[..|b| - 1] && (a + b)[|a + b| - 1] == b[|b| - 1]
  {
  }

  lemma AppendAssoc<T>(a: seq<T>, b: seq<T>, c: seq<T>)
    ensures a + b + c == a + (b + c)
  {
  }

  /** No event in `es` is a middle-button press. */
  predicate NoMiddlePress(es: seq<Event>)
  {
    forall i :: 0 <= i < |es| ==> !(es[i].Press? && es[i].button == MiddleButton && es[i].pressed)
  }

  /** Without a middle press an idle engine stays idle and silent: no
      overlay, no direction, no scroll, the origin untouched. */
  lemma {:induction false} IdleUntilMiddlePress(v: Variant, t: Tunables, s: EngineState, es: seq<Event>,
                                                hypot: (real, real) -> real, pow: (real, real) -> real)
    requires !s.gesture.active && NoMiddlePress(es)
    ensures Trace(v, t, s, es, hypot, pow).0.gesture == s.gesture
    ensures Trace(v, t, s, es, hypot, pow).1 == []
    decreases |es|
  {
    if es != [] {
      var es' := es[..|es| - 1];
      assert NoMiddlePress(es') by {
        forall i | 0 <= i < |es'| ensures !(es'[i].Press? && es'[i].button == MiddleButton && es'[i].pressed) {
          assert es'[i] == es[i];
        }
      }
      IdleUntilMiddlePress(v, t, s, es', hypot, pow);
      var e := es[|es| - 1];
      assert !(e.Press? && e.button == MiddleButton && e.pressed);
    }
  }

  /** A left or right press during a gesture hides the overlay, and then,
      until the next middle press, nothing more is emitted. */
  lemma {:induction false} CancelThenSilence(v: Variant, t: Tunables, s: EngineState, x: real, y: real,
                                             button: Button, rest: seq<Event>,
                                             hypot: (real, real) -> real, pow: (real, real) -> real)
    requires s.gesture.active && (button == LeftButton || button == RightButton)
    requires NoMiddlePress(rest)
    ensures Trace(v, t, s, [Press(x, y, button, true)] + rest, hypot, pow).1 == [Overlay(Hide)]
    ensures !Trace(v, t, s, [Press(x, y, button, true)] + rest, hypot, pow).0.gesture.active
  {
    var press := [Press(x, y, button, true)];
    assert press[..|press| - 1] == [] && press[|press| - 1] == Press(x, y, button, true);
    var first := Trace(v, t, s, press, hypot, pow);
    assert Trace(v, t, s, [], hypot, pow) == (s, []);
    var step := Step(v, t, s, Press(x, y, button, true), hypot, pow);
    assert first == (step.0, [] + step.1);
    assert [] + step.1 == step.1;
    assert first.1 == [Overlay(Hide)];
    TraceAppend(v, t, s, [Press(x, y, button, true)], rest, hypot, pow);
    IdleUntilMiddlePress(v, t, first.0, rest, hypot, pow);
  }

  /** The overlay notifications alternate between show and hide, starting
      with show from an idle engine and with hide from an active one. */
  predicate Alternates(fs: seq<Feedback>, active: bool)
  {
    forall i :: 0 <= i < |fs| ==> (fs[i] == Hide <==> ((i % 2 == 0) == active))
  }

  /** The overlay notification of one step: at most one, present exactly
      when the gesture flips, and hide exactly when it was active. */
  lemma StepOverlay(v: Variant, t: Tunables, s: EngineState, e: Event,
                    hypot: (real, real) -> real, pow: (real, real) -> real)
    ensures var r := Step(v, t, s, e, hypot, pow);
            && |Overlays(r.1)| <= 1
            && (Overlays(r.1) == [] <==> r.0.gesture.active == s.gesture.active)
            && (Overlays(r.1) != [] ==> (Overlays(r.1)[0] == Hide <==> s.gesture.active))
  {
    StepNotifications(v, t, s, e, hypot, pow);
  }

  lemma AlternatesExtend(fs: seq<Feedback>, gs: seq<Feedback>, start: bool, mid: bool, end: bool)
    requires Alternates(fs, start) && mid == (start != (|fs| % 2 == 1))
    requires |gs| <= 1 && (gs == [] <==> end == mid) && (gs != [] ==> (gs[0] == Hide <==> mid))
    ensures Alternates(fs + gs, start) && end == (start != (|fs + gs| % 2 == 1))
  {
    if gs != [] {
      var all := fs + gs;
      forall i | 0 <= i < |all| ensures all[i] == Hide <==> ((i % 2 == 0) == start) {
        if i < |fs| {
          assert all[i] == fs[i];
        } else {
          assert all[i] == gs[0];
        }
      }
    } else {
      assert fs + gs == fs;
    }
  }

  /** Whatever the events, the overlay is told show and hide in turn, and the
      gesture is active at the end exactly when an odd number of
      notifications flipped the initial state. */
  lemma {:induction false} OverlayAlternates(v: Variant, t: Tunables, s: EngineState, es: seq<Event>,
                                             hypot: (real, real) -> real, pow: (real, real) -> real)
    ensures var r := Trace(v, t, s, es, hypot, pow);
            && Alternates(Overlays(r.1), s.gesture.active)
            && r.0.gesture.active == (s.gesture.active != (|Overlays(r.1)| % 2 == 1))
    decreases |es|
  {
    if es != [] {
      var es' := es[..|es| - 1];
      var e := es[|es| - 1];
      OverlayAlternates(v, t, s, es', hypot, pow);
      var before := Trace(v, t, s, es', hypot, pow);
      var after := Step(v, t, before.0, e, hypot, pow);
      assert Trace(v, t, s, es, hypot, pow) == (after.0, before.1 + after.1);
      OverlaysAppend(before.1, after.1);
      StepOverlay(v, t, before.0, e, hypot, pow);
      AlternatesExtend(Overlays(before.1), Overlays(after.1), s.gesture.active,
                       before.0.gesture.active, after.0.gesture.active);
    }
  }

  /** No two neighbours of a sequence are equal. */
  predicate NoRepeats(ds: seq<Direction>)
  {
    forall i :: 0 < i < |ds| ==> ds[i] != ds[i - 1]
  }

  lemma NoRepeatsExtend(ds: seq<Direction>, gs: seq<Direction>, mid: Direction, end: Direction)
    requires NoRepeats(ds) && |ds| > 0 && mid == ds[|ds| - 1]
    requires (gs == [] && end == mid) || (gs == [end] && end != mid)
    ensures NoRepeats(ds + gs) && end == (ds + gs)[|ds + gs| - 1]
  {
    var all := ds + gs;
    forall i | 0 < i < |all| ensures all[i] != all[i - 1] {
      if i < |ds| {
        assert all[i] == ds[i] && all[i - 1] == ds[i - 1];
      }
    }
  }

  /** Every event in `es` is a poll. */
  predicate AllPolls(es: seq<Event>)
  {
    forall i :: 0 <= i < |es| ==> es[i].Poll?
  }

  lemma AllPollsPrefix(es: seq<Event>)
    requires AllPolls(es) && es != []
    ensures AllPolls(es[..|es| - 1]) && es[|es| - 1].Poll?
  {
    var es' := es[..|es| - 1];
    forall i | 0 <= i < |es'| ensures es'[i].Poll? {
      assert es'[i] == es[i];
    }
  }

  /** One more poll during a gesture keeps the direction notifications free
      of repeats and last_dir equal to the last one notified. */
  lemma PollExtendsDirections(v: Variant, t: Tunables, first: Direction, before: (EngineState, seq<Output>),
                              e: Event, hypot: (real, real) -> real, pow: (real, real) -> real)
    requires e.Poll? && before.0.gesture.active
    requires var ds := [first] + Directions(before.1); NoRepeats(ds) && before.0.lastDir == ds[|ds| - 1]
    ensures var after := Step(v, t, before.0, e, hypot, pow);
            var ds := [first] + Directions(before.1 + after.1);
            && after.0.gesture == before.0.gesture
            && NoRepeats(ds)
            && after.0.lastDir == ds[|ds| - 1]
  {
    var after := Step(v, t, before.0, e, hypot, pow);
    DirectionsAppend(before.1, after.1);
    StepDirection(v, t, before.0, e, hypot, pow);
    var ds := [first] + Directions(before.1);
    NoRepeatsExtend(ds, Directions(after.1), before.0.lastDir, after.0.lastDir);
    assert [first] + Directions(before.1 + after.1) == ds + Directions(after.1);
  }

  /** During a gesture the scroll loop of the two-axis copies notifies each
      change of direction once: the notifications never repeat, the first
      differs from last_dir, and last_dir ends as the last one notified. */
  lemma {:induction false} DirectionsNeverRepeat(v: Variant, t: Tunables, s: EngineState, es: seq<Event>,
                                                 hypot: (real, real) -> real, pow: (real, real) -> real)
    requires !v.vertical && s.gesture.active
    requires AllPolls(es)
    ensures var r := Trace(v, t, s, es, hypot, pow);
            var ds := [s.lastDir] + Directions(r.1);
            && r.0.gesture == s.gesture
            && NoRepeats(ds)
            && r.0.lastDir == ds[|ds| - 1]
    decreases |es|
  {
    if es != [] {
      var es' := es[..|es| - 1];
      AllPollsPrefix(es);
      DirectionsNeverRepeat(v, t, s, es', hypot, pow);
      var before := Trace(v, t, s, es', hypot, pow);
      var after := Step(v, t, before.0, es[|es| - 1], hypot, pow);
      assert Trace(v, t, s, es, hypot, pow) == (after.0, before.1 + after.1);
      PollExtendsDirections(v, t, s.lastDir, before, es[|es| - 1], hypot, pow);
    }
  }
}
