/**
 Properties of the gesture button over single steps and over event traces:
 the fixed callback order inside each handler, press idempotence across a
 press cycle, the double-tap pair rule, and the staleness of delayed
 closures once a release or a removal has happened.
 */
module GestureTraces {
  import opened Geometry
  import opened GestureButton

  /** Two ordered runs whose rank ranges do not overlap concatenate to an ordered run. */
  lemma OrderedConcat(a: seq<Callback>, b: seq<Callback>, lo: nat, mid: nat, hi: nat)
    requires Ordered(a) && RanksWithin(a, lo, mid)
    requires Ordered(b) && RanksWithin(b, mid + 1, hi)
    requires lo <= mid + 1 && mid <= hi
    ensures Ordered(a + b) && RanksWithin(a + b, lo, hi)
  {
    forall i, j | 0 <= i < j < |a + b|
      ensures Rank((a + b)[i]) < Rank((a + b)[j])
    {
      if j < |a| {
      } else if i < |a| {
        assert Rank((a + b)[i]) <= mid;
      } else {
        assert (a + b)[i] == b[i - |a|] && (a + b)[j] == b[j - |a|];
      }
    }
  }

  lemma EmitOrdered(present: bool, c: Callback)
    ensures Ordered(Emit(present, c)) && RanksWithin(Emit(present, c), Rank(c), Rank(c))
  {
  }

  /**
   The `onChanged` callbacks come in the order press, drag start, drag
   change, each at most once, and nothing else is invoked.
   */
  lemma PressOrdered(cfg: Config, s: State, p: Point)
    ensures Ordered(OnChanged(cfg, s, p).out) && RanksWithin(OnChanged(cfg, s, p).out, 0, 2)
  {
    var pressOut := HandlePress(cfg, s, p).out;
    assert Ordered(pressOut) && RanksWithin(pressOut, 0, 1) by {
      if !s.pressed {
        PressCallbacksOrdered(cfg, p);
      }
    }
    if cfg.hasDrag {
      OrderedConcat(pressOut, [DragChange(p)], 0, 1, 2);
    }
  }

  /** The callbacks of a press come as press, then drag start. */
  lemma PressCallbacksOrdered(cfg: Config, p: Point)
    ensures Ordered(PressCallbacks(cfg, p)) && RanksWithin(PressCallbacks(cfg, p), 0, 1)
  {
    EmitOrdered(cfg.hasPress, Press);
    EmitOrdered(cfg.hasDragStart, DragStart(p));
    OrderedConcat(Emit(cfg.hasPress, Press), Emit(cfg.hasDragStart, DragStart(p)), 0, 0, 1);
  }

  /**
   The release callbacks come in the order repeat stop, double tap, drag
   end, inside or outside, end, each at most once, and nothing else is
   invoked; in particular inside and outside never both fire.
   */
  lemma ReleaseCallbacksOrdered(cfg: Config, isDoubleTap: bool, p: Point, inside: bool)
    ensures Ordered(ReleaseCallbacks(cfg, isDoubleTap, p, inside))
    ensures RanksWithin(ReleaseCallbacks(cfg, isDoubleTap, p, inside), 3, 7)
  {
    var doubleTap := Emit(cfg.hasDoubleTap && isDoubleTap, DoubleTap);
    var dragEnd := Emit(cfg.hasDragEnd, DragEnd(p));
    var placement :=
      if inside then Emit(cfg.hasReleaseInside, ReleaseInside)
      else Emit(cfg.hasReleaseOutside, ReleaseOutside);
    var upToDoubleTap := [RepeatStop] + doubleTap;
    assert Ordered(upToDoubleTap) && RanksWithin(upToDoubleTap, 3, 4) by {
      EmitOrdered(cfg.hasDoubleTap && isDoubleTap, DoubleTap);
      OrderedConcat([RepeatStop], doubleTap, 3, 3, 4);
    }
    var upToDragEnd := upToDoubleTap + dragEnd;
    assert Ordered(upToDragEnd) && RanksWithin(upToDragEnd, 3, 5) by {
      EmitOrdered(cfg.hasDragEnd, DragEnd(p));
      OrderedConcat(upToDoubleTap, dragEnd, 3, 4, 5);
    }
    var beforeEnd := upToDragEnd + placement;
    assert Ordered(beforeEnd) && RanksWithin(beforeEnd, 3, 6) by {
      EmitOrdered(cfg.hasReleaseInside, ReleaseInside);
      EmitOrdered(cfg.hasReleaseOutside, ReleaseOutside);
      OrderedConcat(upToDragEnd, placement, 3, 5, 6);
    }
    assert ReleaseCallbacks(cfg, isDoubleTap, p, inside)
        == if cfg.hasEnd then beforeEnd + [End] else beforeEnd;
    if cfg.hasEnd {
      OrderedConcat(beforeEnd, [End], 3, 6, 7);
    }
  }

  /** The same order holds for every release the button handles. */
  lemma ReleaseOrdered(cfg: Config, s: State, p: Point, now: real, bounds: Size)
    ensures Ordered(HandleRelease(cfg, s, p, now, bounds).out)
    ensures RanksWithin(HandleRelease(cfg, s, p, now, bounds).out, 3, 7)
  {
    ReleaseCallbacksOrdered(
      cfg, WithinDoubleTapWindow(s.releaseDate, now, cfg.doubleTapTimeout), p, InInterior(bounds, p));
  }

  /** In an ordered run no callback occurs twice. */
  lemma {:induction false} OrderedHasNoRepeats(out: seq<Callback>, c: Callback)
    requires Ordered(out)
    ensures multiset(out)[c] == (if c in out then 1 else 0)
    decreases |out|
  {
    if |out| > 0 {
      assert out == [out[0]] + out[1..];
      assert Ordered(out[1..]) by {
        forall i, j | 0 <= i < j < |out[1..]|
          ensures Rank(out[1..][i]) < Rank(out[1..][j])
        {
          assert out[1..][i] == out[i + 1] && out[1..][j] == out[j + 1];
        }
      }
      OrderedHasNoRepeats(out[1..], c);
    }
  }

  /**
   What a single event can invoke and touch beyond the handler it reaches:
   only a removal sets `removed`, only a release changes the release date
   or double-taps, and long press and repeat start come only from a firing
   of the current token.
   */
  lemma StepCallbacks(cfg: Config, s: State, e: Event)
    ensures Step(cfg, s, e).state.removed == (s.removed || e.Removed?)
    ensures !e.Ended? ==> Step(cfg, s, e).state.releaseDate == s.releaseDate
    ensures LongPress in Step(cfg, s, e).out ==> e.LongPressFired? && e.token == s.longPressDate
    ensures RepeatStart in Step(cfg, s, e).out ==> e.RepeatFired? && e.token == s.repeatDate
    ensures DoubleTap in Step(cfg, s, e).out ==> e.Ended?
  {
    match e
    case Moved(p) =>
      var r := OnChanged(cfg, s, p);
      assert Step(cfg, s, e) == r;
      PressOrdered(cfg, s, p);
      OutsideRanks(r.out, 0, 2, LongPress);
      OutsideRanks(r.out, 0, 2, RepeatStart);
      OutsideRanks(r.out, 0, 2, DoubleTap);
    case Ended(p, now, bounds) =>
      var r := HandleRelease(cfg, s, p, now, bounds);
      assert Step(cfg, s, e) == r;
      ReleaseOrdered(cfg, s, p, now, bounds);
      OutsideRanks(r.out, 3, 7, LongPress);
      OutsideRanks(r.out, 3, 7, RepeatStart);
    case LongPressFired(t) =>
    case RepeatFired(t) =>
    case Removed =>
  }

  /** A callback whose rank lies outside the ranks of a run does not occur in it. */
  lemma OutsideRanks(out: seq<Callback>, lo: nat, hi: nat, c: Callback)
    requires RanksWithin(out, lo, hi) && !(lo <= Rank(c) <= hi)
    ensures c !in out
  {
  }

  /**
   Long press and repeat start are only invoked when their action is
   configured: from a reachable state, no step invokes an absent action.
   */
  lemma TimerActionsNeedConfiguration(cfg: Config, s: State, e: Event)
    requires Valid(cfg, s)
    ensures LongPress in Step(cfg, s, e).out ==> cfg.hasLongPress
    ensures RepeatStart in Step(cfg, s, e).out ==> cfg.hasRepeat
  {
    StepCallbacks(cfg, s, e);
  }

  /** The same over any trace from a reachable state. */
  lemma {:induction false} TimerActionsNeedConfigurationRun(cfg: Config, s: State, events: seq<Event>)
    requires Valid(cfg, s)
    ensures LongPress in Run(cfg, s, events).out ==> cfg.hasLongPress
    ensures RepeatStart in Run(cfg, s, events).out ==> cfg.hasRepeat
    decreases |events|
  {
    if |events| > 0 {
      TimerActionsNeedConfiguration(cfg, s, events[0]);
      TimerActionsNeedConfigurationRun(cfg, Step(cfg, s, events[0]).state, events[1..]);
    }
  }

  /**
   Within one press cycle (no release arrives) long press is invoked at
   most once, and only if the closure carrying the current token is still
   queued.
   */
  lemma {:induction false} LongPressAtMostOncePerCycle(cfg: Config, s: State, events: seq<Event>)
    requires s.pressed
    requires forall i :: 0 <= i < |events| ==> !events[i].Ended?
    ensures multiset(Run(cfg, s, events).out)[LongPress]
         <= (if s.longPressDate in s.longPressQueue then 1 else 0)
    decreases |events|
  {
    if |events| > 0 {
      var first := Step(cfg, s, events[0]);
      assert first.state.pressed && first.state.longPressDate == s.longPressDate;
      assert first.state.longPressQueue <= s.longPressQueue;
      assert multiset(first.out)[LongPress]
          + (if first.state.longPressDate in first.state.longPressQueue then 1 else 0)
          <= (if s.longPressDate in s.longPressQueue then 1 else 0) by {
        match events[0]
        case Moved(p) =>
          assert first.out == Emit(cfg.hasDrag, DragChange(p));
        case LongPressFired(t) =>
          assert first == FireLongPress(s, t);
        case RepeatFired(t) =>
          assert first == FireRepeat(s, t);
        case Removed =>
      }
      forall i | 0 <= i < |events[1..]|
        ensures !events[1..][i].Ended?
      {
        assert events[1..][i] == events[i + 1];
      }
      LongPressAtMostOncePerCycle(cfg, first.state, events[1..]);
    }
  }

  /** Likewise, within one press cycle repeat start is invoked at most once. */
  lemma {:induction false} RepeatStartAtMostOncePerCycle(cfg: Config, s: State, events: seq<Event>)
    requires s.pressed
    requires forall i :: 0 <= i < |events| ==> !events[i].Ended?
    ensures multiset(Run(cfg, s, events).out)[RepeatStart]
         <= (if s.repeatDate in s.repeatQueue then 1 else 0)
    decreases |events|
  {
    if |events| > 0 {
      var first := Step(cfg, s, events[0]);
      assert first.state.pressed && first.state.repeatDate == s.repeatDate;
      assert first.state.repeatQueue <= s.repeatQueue;
      assert multiset(first.out)[RepeatStart]
          + (if first.state.repeatDate in first.state.repeatQueue then 1 else 0)
          <= (if s.repeatDate in s.repeatQueue then 1 else 0) by {
        match events[0]
        case Moved(p) =>
          assert first.out == Emit(cfg.hasDrag, DragChange(p));
        case LongPressFired(t) =>
          assert first == FireLongPress(s, t);
        case RepeatFired(t) =>
          assert first == FireRepeat(s, t);
        case Removed =>
      }
      forall i | 0 <= i < |events[1..]|
        ensures !events[1..][i].Ended?
      {
        assert events[1..][i] == events[i + 1];
      }
      RepeatStartAtMostOncePerCycle(cfg, first.state, events[1..]);
    }
  }

  /**
   After a release every queued closure is stale: none carries the token
   that is now current, so none of them can fire with effect.
   */
  lemma ReleaseMakesQueuedStale(cfg: Config, s: State, p: Point, now: real, bounds: Size)
    requires Valid(cfg, s) && s.pressed
    ensures var r := HandleRelease(cfg, s, p, now, bounds).state;
      && (forall t :: t in r.longPressQueue ==> t < r.longPressDate)
      && (forall t :: t in r.repeatQueue ==> t < r.repeatDate)
  {
  }

  /**
   A step starting from a state whose current long-press token is newer
   than `bound` keeps it newer than `bound`, and a long-press firing whose
   token is at most `bound` invokes nothing.
   */
  lemma {:induction false} StaleLongPressNeverFires(cfg: Config, s: State, events: seq<Event>, bound: Token)
    requires Valid(cfg, s) && s.longPressDate > bound
    requires forall i :: 0 <= i < |events| && events[i].LongPressFired? ==> events[i].token <= bound
    ensures LongPress !in Run(cfg, s, events).out
    decreases |events|
  {
    if |events| > 0 {
      var first := Step(cfg, s, events[0]);
      StepCallbacks(cfg, s, events[0]);
      assert LongPress !in first.out;
      forall i | 0 <= i < |events[1..]| && events[1..][i].LongPressFired?
        ensures events[1..][i].token <= bound
      {
        assert events[1..][i] == events[i + 1];
      }
      StaleLongPressNeverFires(cfg, first.state, events[1..], bound);
    }
  }

  /** The same for repeat closures: a stale token never starts the repeat timer. */
  lemma {:induction false} StaleRepeatNeverStarts(cfg: Config, s: State, events: seq<Event>, bound: Token)
    requires Valid(cfg, s) && s.repeatDate > bound
    requires forall i :: 0 <= i < |events| && events[i].RepeatFired? ==> events[i].token <= bound
    ensures RepeatStart !in Run(cfg, s, events).out
    decreases |events|
  {
    if |events| > 0 {
      var first := Step(cfg, s, events[0]);
      StepCallbacks(cfg, s, events[0]);
      assert RepeatStart !in first.out;
      forall i | 0 <= i < |events[1..]| && events[1..][i].RepeatFired?
        ensures events[1..][i].token <= bound
      {
        assert events[1..][i] == events[i + 1];
      }
      StaleRepeatNeverStarts(cfg, first.state, events[1..], bound);
    }
  }

  /** Over any trace from a reachable state, the current tokens never go back. */
  lemma {:induction false} RunKeepsTokens(cfg: Config, s: State, events: seq<Event>)
    requires Valid(cfg, s)
    ensures Run(cfg, s, events).state.longPressDate >= s.longPressDate
    ensures Run(cfg, s, events).state.repeatDate >= s.repeatDate
    decreases |events|
  {
    if |events| > 0 {
      RunKeepsTokens(cfg, Step(cfg, s, events[0]).state, events[1..]);
    }
  }

  /**
   A closure scheduled before a release never fires with effect after that
   release, whatever happens next: at every later firing of a token handed
   out up to the release, including firings that follow a later press whose
   own closures fire, nothing is invoked.
   */
  lemma ScheduledBeforeReleaseStaysStale(
    cfg: Config, s: State, p: Point, now: real, bounds: Size, events: seq<Event>)
    requires Valid(cfg, s) && s.pressed
    ensures var after := HandleRelease(cfg, s, p, now, bounds).state;
      forall i | 0 <= i < |events| && events[i].LongPressFired? && events[i].token <= s.issued ::
        LongPress !in Step(cfg, Run(cfg, after, events[..i]).state, events[i]).out
    ensures var after := HandleRelease(cfg, s, p, now, bounds).state;
      forall i | 0 <= i < |events| && events[i].RepeatFired? && events[i].token <= s.issued ::
        RepeatStart !in Step(cfg, Run(cfg, after, events[..i]).state, events[i]).out
  {
    var after := HandleRelease(cfg, s, p, now, bounds).state;
    assert Valid(cfg, after) by {
      assert after == Step(cfg, s, Ended(p, now, bounds)).state;
    }
    assert after.longPressDate > s.issued && after.repeatDate > s.issued;
    forall i | 0 <= i < |events| && events[i].LongPressFired? && events[i].token <= s.issued
      ensures LongPress !in Step(cfg, Run(cfg, after, events[..i]).state, events[i]).out
    {
      RunKeepsTokens(cfg, after, events[..i]);
      StepCallbacks(cfg, Run(cfg, after, events[..i]).state, events[i]);
    }
    forall i | 0 <= i < |events| && events[i].RepeatFired? && events[i].token <= s.issued
      ensures RepeatStart !in Step(cfg, Run(cfg, after, events[..i]).state, events[i]).out
    {
      RunKeepsTokens(cfg, after, events[..i]);
      StepCallbacks(cfg, Run(cfg, after, events[..i]).state, events[i]);
    }
  }

  /**
   The trace-level consequence: when every firing after a release carries a
   token handed out up to the release, no later event invokes long press or
   starts the repeat timer.
   */
  lemma OnlyPreReleaseFiringsInvokeNothing(
    cfg: Config, s: State, p: Point, now: real, bounds: Size, events: seq<Event>)
    requires Valid(cfg, s) && s.pressed
    requires forall i :: 0 <= i < |events| && events[i].LongPressFired? ==> events[i].token <= s.issued
    requires forall i :: 0 <= i < |events| && events[i].RepeatFired? ==> events[i].token <= s.issued
    ensures var after := HandleRelease(cfg, s, p, now, bounds).state;
      && LongPress !in Run(cfg, after, events).out
      && RepeatStart !in Run(cfg, after, events).out
  {
    var after := HandleRelease(cfg, s, p, now, bounds).state;
    assert after == Step(cfg, s, Ended(p, now, bounds)).state;
    StaleLongPressNeverFires(cfg, after, events, s.issued);
    StaleRepeatNeverStarts(cfg, after, events, s.issued);
  }

  /** Once the view is removed, no delayed closure invokes anything, whatever events follow. */
  lemma {:induction false} NothingFiresAfterRemoval(cfg: Config, s: State, events: seq<Event>)
    requires s.removed
    ensures LongPress !in Run(cfg, s, events).out
    ensures RepeatStart !in Run(cfg, s, events).out
    decreases |events|
  {
    if |events| > 0 {
      var first := Step(cfg, s, events[0]);
      StepCallbacks(cfg, s, events[0]);
      assert LongPress !in first.out && RepeatStart !in first.out;
      NothingFiresAfterRemoval(cfg, first.state, events[1..]);
    }
  }

  /** A long-press closure is consumed when it fires: firing the same token again does nothing. */
  lemma LongPressFiresOnce(cfg: Config, s: State, t: Token)
    ensures var once := Step(cfg, s, LongPressFired(t));
      Step(cfg, once.state, LongPressFired(t)) == Reaction(once.state, [])
  {
  }

  /**
   Press idempotence over a press cycle: however many `onChanged` events
   arrive, press and drag start are each invoked once if the button was not
   pressed and never if it was, drag start only at the first event's
   location, and the button stays pressed.
   */
  lemma {:induction false} PressOncePerCycle(cfg: Config, s: State, events: seq<Event>, q: Point)
    requires forall i :: 0 <= i < |events| ==> events[i].Moved?
    ensures Run(cfg, s, events).state.pressed == (s.pressed || |events| > 0)
    ensures multiset(Run(cfg, s, events).out)[Press]
         == (if !s.pressed && cfg.hasPress && |events| > 0 then 1 else 0)
    ensures multiset(Run(cfg, s, events).out)[DragStart(q)]
         == (if !s.pressed && cfg.hasDragStart && |events| > 0 && q == events[0].at then 1 else 0)
    decreases |events|
  {
    if |events| > 0 {
      var first := Step(cfg, s, events[0]);
      assert first == OnChanged(cfg, s, events[0].at);
      PressOrdered(cfg, s, events[0].at);
      OrderedHasNoRepeats(first.out, Press);
      OrderedHasNoRepeats(first.out, DragStart(q));
      assert DragStart(q) in first.out ==> q == events[0].at;
      PressOncePerCycle(cfg, first.state, events[1..], q);
    }
  }

  /** Drag change is reported for every `onChanged` event, the one that presses included. */
  lemma {:induction false} EveryMoveReportsChange(cfg: Config, s: State, events: seq<Event>)
    requires cfg.hasDrag
    requires forall i :: 0 <= i < |events| ==> events[i].Moved?
    ensures forall i :: 0 <= i < |events| ==> DragChange(events[i].at) in Run(cfg, s, events).out
    decreases |events|
  {
    if |events| > 0 {
      var first := Step(cfg, s, events[0]);
      EveryMoveReportsChange(cfg, first.state, events[1..]);
      forall i | 0 <= i < |events|
        ensures DragChange(events[i].at) in Run(cfg, s, events).out
      {
        if i > 0 {
          assert events[1..][i - 1] == events[i];
        }
      }
    }
  }

  /**
   From a release date of `distantPast`, no release double-taps until one
   release has happened: every event but the last is not a release.
   */
  lemma {:induction false} NoDoubleTapFromDistantPast(cfg: Config, s: State, events: seq<Event>)
    requires s.releaseDate == DistantPast
    requires forall i :: 0 <= i < |events| - 1 ==> !events[i].Ended?
    ensures DoubleTap !in Run(cfg, s, events).out
    decreases |events|
  {
    if |events| > 0 {
      var first := Step(cfg, s, events[0]);
      StepCallbacks(cfg, s, events[0]);
      assert DoubleTap !in first.out;
      if |events| > 1 {
        assert !events[0].Ended?;
        forall i | 0 <= i < |events[1..]| - 1
          ensures !events[1..][i].Ended?
        {
          assert events[1..][i] == events[i + 1];
        }
        NoDoubleTapFromDistantPast(cfg, first.state, events[1..]);
      }
    }
  }

  /**
   Double taps pair consecutive releases only: after a release that
   double-tapped, the next release does not, whatever presses, drags and
   timer firings come in between.
   */
  lemma DoubleTapsDoNotChain(
    cfg: Config, s: State, p: Point, now: real, bounds: Size, events: seq<Event>)
    requires s.pressed && WithinDoubleTapWindow(s.releaseDate, now, cfg.doubleTapTimeout)
    requires forall i :: 0 <= i < |events| - 1 ==> !events[i].Ended?
    ensures DoubleTap in HandleRelease(cfg, s, p, now, bounds).out <==> cfg.hasDoubleTap
    ensures DoubleTap !in Run(cfg, HandleRelease(cfg, s, p, now, bounds).state, events).out
  {
    NoDoubleTapFromDistantPast(cfg, HandleRelease(cfg, s, p, now, bounds).state, events);
  }

  /** A tap is an `onChanged` event followed by a release at the same location. */
  function Tap(p: Point, now: real, bounds: Size): seq<Event>
  {
    [Moved(p), Ended(p, now, bounds)]
  }

  /** Running a tap is pressing and then releasing. */
  lemma RunTap(cfg: Config, s: State, p: Point, now: real, bounds: Size)
    ensures var pressed := OnChanged(cfg, s, p);
      var released := HandleRelease(cfg, pressed.state, p, now, bounds);
      Run(cfg, s, Tap(p, now, bounds)) == Reaction(released.state, pressed.out + released.out)
  {
    assert Tap(p, now, bounds)[1..] == [Ended(p, now, bounds)];
    var pressed := OnChanged(cfg, s, p);
    var released := HandleRelease(cfg, pressed.state, p, now, bounds);
    assert Run(cfg, pressed.state, [Ended(p, now, bounds)]) == Reaction(released.state, released.out + []);
  }

  /** A tap from a release date of `distantPast` never double-taps. */
  lemma TapAfterDistantPast(cfg: Config, s: State, p: Point, now: real, bounds: Size)
    requires s.releaseDate == DistantPast
    ensures DoubleTap !in Run(cfg, s, Tap(p, now, bounds)).out
  {
    RunTap(cfg, s, p, now, bounds);
    var pressed := OnChanged(cfg, s, p);
    assert pressed.state.releaseDate == DistantPast;
    assert DoubleTap !in pressed.out by {
      PressOrdered(cfg, s, p);
      OutsideRanks(pressed.out, 0, 2, DoubleTap);
    }
    assert DoubleTap !in HandleRelease(cfg, pressed.state, p, now, bounds).out;
  }

  /**
   A release outside the window arms the next one: the next tap
   double-taps exactly when it is released strictly within the timeout.
   */
  lemma ReleaseArmsNextDoubleTap(
    cfg: Config, s: State, p: Point, now: real, bounds: Size, q: Point, later: real, laterBounds: Size)
    requires s.pressed && !WithinDoubleTapWindow(s.releaseDate, now, cfg.doubleTapTimeout)
    ensures var after := HandleRelease(cfg, s, p, now, bounds).state;
      (DoubleTap in Run(cfg, after, Tap(q, later, laterBounds)).out)
        <==> (cfg.hasDoubleTap && later - now < cfg.doubleTapTimeout)
  {
    RunTap(cfg, HandleRelease(cfg, s, p, now, bounds).state, q, later, laterBounds);
  }

  /**
   The release date starts at the creation time, so the very first tap
   double-taps when it is released strictly within the timeout of the
   button's creation.
   */
  lemma FirstTapMeasuredFromCreation(cfg: Config, createdAt: real, p: Point, now: real, bounds: Size)
    ensures (DoubleTap in Run(cfg, Init(createdAt), Tap(p, now, bounds)).out)
        <==> (cfg.hasDoubleTap && now - createdAt < cfg.doubleTapTimeout)
  {
    RunTap(cfg, Init(createdAt), p, now, bounds);
  }

  /** A release on any edge of the button counts as outside, never inside. */
  lemma EdgeReleaseIsOutside(cfg: Config, s: State, p: Point, now: real, bounds: Size)
    requires s.pressed && OnEdge(bounds, p)
    ensures ReleaseInside !in HandleRelease(cfg, s, p, now, bounds).out
    ensures ReleaseOutside in HandleRelease(cfg, s, p, now, bounds).out <==> cfg.hasReleaseOutside
  {
  }

  /** A configuration in which every optional action is supplied. */
  function EveryAction(doubleTapTimeout: real): Config
  {
    Config(true, true, true, true, true, true, true, true, true, true, doubleTapTimeout)
  }

  /**
   A single tap in the middle of a 100 by 100 button, long after creation:
   press, drag start, drag change, repeat stop, drag end, inside, end, and
   no double tap.
   */
  lemma SingleTapScenario()
    ensures var p := Point(50.0, 50.0);
      Run(EveryAction(0.3), Init(-10.0), Tap(p, 0.1, Size(100.0, 100.0))).out
        == [Press, DragStart(p), DragChange(p), RepeatStop, DragEnd(p), ReleaseInside, End]
  {
    RunTap(EveryAction(0.3), Init(-10.0), Point(50.0, 50.0), 0.1, Size(100.0, 100.0));
  }

  /**
   Long press and repeat carry separate tokens, so both can fire in one
   press cycle: press, drag start, drag change, then long press and repeat
   start as their closures come back.
   */
  lemma BothTimersInOneCycle()
    ensures var p := Point(1.0, 1.0);
      Run(EveryAction(0.3), Init(0.0), [Moved(p), LongPressFired(1), RepeatFired(2)]).out
        == [Press, DragStart(p), DragChange(p), LongPress, RepeatStart]
  {
    var cfg := EveryAction(0.3);
    var p := Point(1.0, 1.0);
    var held := State(true, false, At(0.0), 1, 2, 2, {1}, {2});
    assert Step(cfg, Init(0.0), Moved(p)) == Reaction(held, [Press, DragStart(p), DragChange(p)]) by {
      assert HandlePress(cfg, Init(0.0), p) == Reaction(held, [Press, DragStart(p)]);
    }
    assert Run(cfg, held, [LongPressFired(1), RepeatFired(2)]).out == [LongPress, RepeatStart] by {
      BothClosuresFire(cfg, held);
    }
    assert [Moved(p), LongPressFired(1), RepeatFired(2)][1..] == [LongPressFired(1), RepeatFired(2)];
  }

  /** The second half of the scenario above: both queued closures fire with their current tokens. */
  lemma BothClosuresFire(cfg: Config, held: State)
    requires held == State(true, false, At(0.0), 1, 2, 2, {1}, {2})
    ensures Run(cfg, held, [LongPressFired(1), RepeatFired(2)]).out == [LongPress, RepeatStart]
  {
    var afterLong := held.(longPressQueue := {});
    assert Step(cfg, held, LongPressFired(1)) == Reaction(afterLong, [LongPress]);
    assert Run(cfg, afterLong, [RepeatFired(2)]).out == [RepeatStart] by {
      assert Step(cfg, afterLong, RepeatFired(2)).out == [RepeatStart];
    }
    assert [LongPressFired(1), RepeatFired(2)][1..] == [RepeatFired(2)];
  }

  /**
   Three taps released at 0.0, 0.2 and 0.25 with a timeout of 0.3: the
   second release double-taps, the third does not.
   */
  lemma TripleTapScenario()
    ensures var cfg := EveryAction(0.3);
      var p := Point(50.0, 50.0);
      var b := Size(100.0, 100.0);
      var first := Run(cfg, Init(-10.0), Tap(p, 0.0, b));
      var second := Run(cfg, first.state, Tap(p, 0.2, b));
      var third := Run(cfg, second.state, Tap(p, 0.25, b));
      DoubleTap !in first.out && DoubleTap in second.out && DoubleTap !in third.out
  {
    var cfg := EveryAction(0.3);
    var p := Point(50.0, 50.0);
    var b := Size(100.0, 100.0);
    var first := Run(cfg, Init(-10.0), Tap(p, 0.0, b));
    assert DoubleTap !in first.out && first.state.releaseDate == At(0.0) && !first.state.pressed by {
      FirstTapMeasuredFromCreation(cfg, -10.0, p, 0.0, b);
      RunTap(cfg, Init(-10.0), p, 0.0, b);
    }
    var second := Run(cfg, first.state, Tap(p, 0.2, b));
    assert DoubleTap in second.out && second.state.releaseDate == DistantPast by {
      RunTap(cfg, first.state, p, 0.2, b);
    }
    TapAfterDistantPast(cfg, second.state, p, 0.25, b);
  }
}
