/**
 The interaction state machine of the gesture button. A drag gesture
 delivers `onChanged` and `onEnded` events; two delayed closures (long
 press and repeat) come back later carrying the token they captured; the
 view can disappear. Each of those inputs is an `Event`, and `Step` maps a
 state and an event to the next state and the ordered list of callbacks the
 button invokes on the way.

 Wall-clock dates used as staleness tokens are modelled as a counter that
 hands out a fresh token on every use; the main dispatch queue is modelled
 as the set of tokens whose delayed closures are still queued.
 */
module GestureButton {
  import opened Geometry

  /** A staleness token: the value a delayed closure captures and compares on firing. */
  type Token = nat

  /** The time of the last release: a real instant, or the sentinel `distantPast`. */
  datatype Instant = DistantPast | At(seconds: real)

  /**
   The button's configuration. Each `has…` flag says whether the matching
   optional action was supplied; an action that is absent is not invoked.
   */
  datatype Config = Config(
    hasPress: bool,
    hasReleaseInside: bool,
    hasReleaseOutside: bool,
    hasLongPress: bool,
    hasDoubleTap: bool,
    hasRepeat: bool,
    hasDragStart: bool,
    hasDrag: bool,
    hasDragEnd: bool,
    hasEnd: bool,
    doubleTapTimeout: real)

  /**
   The button's state. `pressed`, `removed`, `releaseDate`, `longPressDate`
   and `repeatDate` are the view's own state; `issued` is the last token
   handed out, and the two queues hold the tokens of the delayed closures
   that have been scheduled and have not fired yet.
   */
  datatype State = State(
    pressed: bool,
    removed: bool,
    releaseDate: Instant,
    longPressDate: Token,
    repeatDate: Token,
    issued: Token,
    longPressQueue: set<Token>,
    repeatQueue: set<Token>)

  /** The inputs the button reacts to. */
  datatype Event =
    | Moved(at: Point)
    | Ended(at: Point, now: real, bounds: Size)
    | LongPressFired(token: Token)
    | RepeatFired(token: Token)
    | Removed

  /**
   The callbacks the button invokes. `RepeatStart` and `RepeatStop` are the
   calls into the repeat timer, whose cadence is not part of this model.
   */
  datatype Callback =
    | Press
    | DragStart(at: Point)
    | DragChange(at: Point)
    | RepeatStop
    | DoubleTap
    | DragEnd(at: Point)
    | ReleaseInside
    | ReleaseOutside
    | End
    | LongPress
    | RepeatStart

  /** What one step produces: the next state and the callbacks, in invocation order. */
  datatype Reaction = Reaction(state: State, out: seq<Callback>)

  /**
   The position of a callback in the fixed order the button promises within
   one handler: press before drag start before drag change; repeat stop
   before double tap before drag end before inside/outside before end.
   */
  function Rank(c: Callback): nat
  {
    match c
    case Press => 0
    case DragStart(_) => 1
    case DragChange(_) => 2
    case RepeatStop => 3
    case DoubleTap => 4
    case DragEnd(_) => 5
    case ReleaseInside => 6
    case ReleaseOutside => 6
    case End => 7
    case LongPress => 8
    case RepeatStart => 8
  }

  /** The callbacks appear in strictly increasing rank: no repeats, no inversions. */
  predicate Ordered(out: seq<Callback>)
  {
    forall i, j :: 0 <= i < j < |out| ==> Rank(out[i]) < Rank(out[j])
  }

  /** Every callback in `out` has a rank between `lo` and `hi`. */
  predicate RanksWithin(out: seq<Callback>, lo: nat, hi: nat)
  {
    forall i :: 0 <= i < |out| ==> lo <= Rank(out[i]) <= hi
  }

  /** Every drag callback in `out` reports the location `p`. */
  predicate ReportsAt(out: seq<Callback>, p: Point)
  {
    forall c | c in out :: (c.DragStart? || c.DragChange? || c.DragEnd?) ==> c.at == p
  }

  /** Invokes an optional action: one callback when it is present, none otherwise. */
  function Emit(present: bool, c: Callback): seq<Callback>
  {
    if present then [c] else []
  }

  /**
   The state right after construction. All three dates are the creation
   time; no token has been captured by any closure yet.
   */
  function Init(createdAt: real): (s: State)
    ensures !s.pressed && !s.removed
    ensures s.releaseDate == At(createdAt)
    ensures s.longPressQueue == {} && s.repeatQueue == {}
    ensures forall cfg :: Valid(cfg, s)
  {
    State(false, false, At(createdAt), 0, 0, 0, {}, {})
  }

  /**
   Reachable-state invariant: the current tokens were handed out, every
   queued closure carries a token no newer than the current one, and a
   closure is only ever queued for a configured action.
   */
  predicate Valid(cfg: Config, s: State)
  {
    && s.longPressDate <= s.issued
    && s.repeatDate <= s.issued
    && (forall t :: t in s.longPressQueue ==> t <= s.longPressDate)
    && (forall t :: t in s.repeatQueue ==> t <= s.repeatDate)
    && (!cfg.hasLongPress ==> s.longPressQueue == {})
    && (!cfg.hasRepeat ==> s.repeatQueue == {})
  }

  /**
   `tryTriggerDoubleTap`'s test: a release is a double tap when strictly
   less than the timeout has passed since the last release. The sentinel
   `distantPast` is never within the window, and a release exactly one
   timeout later is not a double tap.
   */
  function WithinDoubleTapWindow(last: Instant, now: real, timeout: real): (r: bool)
    ensures last.DistantPast? ==> !r
    ensures last.At? ==> (r <==> now < last.seconds + timeout)
    ensures last.At? && now == last.seconds + timeout ==> !r
  {
    match last
    case DistantPast => false
    case At(t) => now - t < timeout
  }

  /**
   Schedules the long-press closure when a long-press action exists: a
   fresh token becomes the current one and its closure is queued.
   */
  function ScheduleLongPress(cfg: Config, s: State): (r: State)
    ensures r.pressed == s.pressed && r.removed == s.removed && r.releaseDate == s.releaseDate
    ensures r.repeatDate == s.repeatDate && r.repeatQueue == s.repeatQueue
    ensures cfg.hasLongPress ==> r.longPressDate > s.issued && r.issued == r.longPressDate
    ensures cfg.hasLongPress ==> r.longPressQueue == s.longPressQueue + {r.longPressDate}
    ensures !cfg.hasLongPress ==> r == s
  {
    if !cfg.hasLongPress then s
    else
      var token := s.issued + 1;
      s.(longPressDate := token, issued := token, longPressQueue := s.longPressQueue + {token})
  }

  /** Schedules the repeat closure when a repeat action exists, in the same way. */
  function ScheduleRepeat(cfg: Config, s: State): (r: State)
    ensures r.pressed == s.pressed && r.removed == s.removed && r.releaseDate == s.releaseDate
    ensures r.longPressDate == s.longPressDate && r.longPressQueue == s.longPressQueue
    ensures cfg.hasRepeat ==> r.repeatDate > s.issued && r.issued == r.repeatDate
    ensures cfg.hasRepeat ==> r.repeatQueue == s.repeatQueue + {r.repeatDate}
    ensures !cfg.hasRepeat ==> r == s
  {
    if !cfg.hasRepeat then s
    else
      var token := s.issued + 1;
      s.(repeatDate := token, issued := token, repeatQueue := s.repeatQueue + {token})
  }

  /** The callbacks of a press: press, then drag start at the pressing location. */
  function PressCallbacks(cfg: Config, p: Point): (out: seq<Callback>)
    ensures Press in out <==> cfg.hasPress
    ensures DragStart(p) in out <==> cfg.hasDragStart
    ensures ReportsAt(out, p) && DragChange(p) !in out
  {
    Emit(cfg.hasPress, Press) + Emit(cfg.hasDragStart, DragStart(p))
  }

  /**
   `tryHandlePress`: nothing happens while already pressed. Otherwise the
   button becomes pressed, invokes press and drag start, and schedules the
   long-press and repeat closures for the actions that exist; each
   scheduled closure carries a token newer than any handed out before.
   */
  function HandlePress(cfg: Config, s: State, p: Point): (r: Reaction)
    ensures s.pressed ==> r == Reaction(s, [])
    ensures !s.pressed ==> r.state.pressed && r.state.removed == s.removed
    ensures r.state.releaseDate == s.releaseDate && r.state.issued >= s.issued
    ensures !s.pressed ==> r.out == PressCallbacks(cfg, p)
    ensures !s.pressed && cfg.hasLongPress ==>
      r.state.longPressDate > s.issued && r.state.longPressQueue == s.longPressQueue + {r.state.longPressDate}
    ensures !(!s.pressed && cfg.hasLongPress) ==>
      r.state.longPressDate == s.longPressDate && r.state.longPressQueue == s.longPressQueue
    ensures !s.pressed && cfg.hasRepeat ==>
      r.state.repeatDate > s.issued && r.state.repeatQueue == s.repeatQueue + {r.state.repeatDate}
    ensures !(!s.pressed && cfg.hasRepeat) ==>
      r.state.repeatDate == s.repeatDate && r.state.repeatQueue == s.repeatQueue
  {
    if s.pressed then Reaction(s, [])
    else
      var scheduled := ScheduleRepeat(cfg, ScheduleLongPress(cfg, s.(pressed := true)));
      Reaction(scheduled, PressCallbacks(cfg, p))
  }

  /**
   The `onChanged` wiring: try to press, then report the drag change. While
   already pressed this leaves the state alone and only reports the change.
   */
  function OnChanged(cfg: Config, s: State, p: Point): (r: Reaction)
    ensures s.pressed ==> r.state == s && r.out == Emit(cfg.hasDrag, DragChange(p))
    ensures !s.pressed ==> r.state.pressed
    ensures Press in r.out <==> !s.pressed && cfg.hasPress
    ensures DragStart(p) in r.out <==> !s.pressed && cfg.hasDragStart
    ensures DragChange(p) in r.out <==> cfg.hasDrag
    ensures ReportsAt(r.out, p)
    ensures cfg.hasDrag ==> r.out[|r.out| - 1] == DragChange(p)
  {
    var pressed := HandlePress(cfg, s, p);
    if cfg.hasDrag then Reaction(pressed.state, pressed.out + [DragChange(p)])
    else pressed
  }

  /**
   The callbacks of a release, given the outcome of the double-tap test and
   of the containment test: the repeat timer is stopped first, the end
   action comes last, and the inside or the outside action, never both, is
   chosen in between.
   */
  function ReleaseCallbacks(cfg: Config, isDoubleTap: bool, p: Point, inside: bool): (out: seq<Callback>)
    ensures |out| > 0 && out[0] == RepeatStop
    ensures DoubleTap in out <==> cfg.hasDoubleTap && isDoubleTap
    ensures DragEnd(p) in out <==> cfg.hasDragEnd
    ensures ReportsAt(out, p)
    ensures ReleaseInside in out <==> cfg.hasReleaseInside && inside
    ensures ReleaseOutside in out <==> cfg.hasReleaseOutside && !inside
    ensures End in out <==> cfg.hasEnd
    ensures cfg.hasEnd ==> out[|out| - 1] == End
  {
    var beforeEnd :=
      [RepeatStop]
      + Emit(cfg.hasDoubleTap && isDoubleTap, DoubleTap)
      + Emit(cfg.hasDragEnd, DragEnd(p))
      + (if inside then Emit(cfg.hasReleaseInside, ReleaseInside)
         else Emit(cfg.hasReleaseOutside, ReleaseOutside));
    if cfg.hasEnd then beforeEnd + [End] else beforeEnd
  }

  /**
   `tryHandleRelease`: nothing happens unless pressed. Otherwise the button
   is released, both current tokens are replaced by fresh ones so that every
   queued closure becomes stale, the double-tap test decides the new release
   date, and the release callbacks are invoked.
   */
  function HandleRelease(cfg: Config, s: State, p: Point, now: real, bounds: Size): (r: Reaction)
    ensures !s.pressed ==> r == Reaction(s, [])
    ensures s.pressed ==> !r.state.pressed && r.state.removed == s.removed
    ensures s.pressed ==> r.state.longPressDate > s.issued && r.state.repeatDate > s.issued
    ensures s.pressed ==> r.state.issued >= r.state.longPressDate && r.state.issued >= r.state.repeatDate
    ensures r.state.longPressQueue == s.longPressQueue && r.state.repeatQueue == s.repeatQueue
    ensures s.pressed ==>
      r.state.releaseDate ==
        (if WithinDoubleTapWindow(s.releaseDate, now, cfg.doubleTapTimeout) then DistantPast else At(now))
    ensures s.pressed ==> r.out == ReleaseCallbacks(
      cfg, WithinDoubleTapWindow(s.releaseDate, now, cfg.doubleTapTimeout), p, InInterior(bounds, p))
  {
    if !s.pressed then Reaction(s, [])
    else
      var isDoubleTap := WithinDoubleTapWindow(s.releaseDate, now, cfg.doubleTapTimeout);
      var released := s.(
        pressed := false,
        longPressDate := s.issued + 1,
        repeatDate := s.issued + 2,
        issued := s.issued + 2,
        releaseDate := if isDoubleTap then DistantPast else At(now));
      Reaction(released, ReleaseCallbacks(cfg, isDoubleTap, p, Contains(bounds, p)))
  }

  /**
   The long-press closure with token `t` comes off the queue. A token that
   was never queued (or already fired) has no closure. A queued closure does
   nothing once the view is removed or when its token is no longer current;
   otherwise it invokes the long-press action.
   */
  function FireLongPress(s: State, t: Token): (r: Reaction)
    ensures r.state == s.(longPressQueue := s.longPressQueue - {t})
    ensures LongPress in r.out <==> t in s.longPressQueue && !s.removed && t == s.longPressDate
    ensures forall c | c in r.out :: c == LongPress
    ensures |r.out| <= 1
  {
    var consumed := s.(longPressQueue := s.longPressQueue - {t});
    if t !in s.longPressQueue then Reaction(s, [])
    else if s.removed then Reaction(consumed, [])
    else if s.longPressDate != t then Reaction(consumed, [])
    else Reaction(consumed, [LongPress])
  }

  /** The repeat closure with token `t` comes off the queue; when current, it starts the repeat timer. */
  function FireRepeat(s: State, t: Token): (r: Reaction)
    ensures r.state == s.(repeatQueue := s.repeatQueue - {t})
    ensures RepeatStart in r.out <==> t in s.repeatQueue && !s.removed && t == s.repeatDate
    ensures forall c | c in r.out :: c == RepeatStart
    ensures |r.out| <= 1
  {
    var consumed := s.(repeatQueue := s.repeatQueue - {t});
    if t !in s.repeatQueue then Reaction(s, [])
    else if s.removed then Reaction(consumed, [])
    else if s.repeatDate != t then Reaction(consumed, [])
    else Reaction(consumed, [RepeatStart])
  }

  /** One input event handled to completion. */
  function Step(cfg: Config, s: State, e: Event): (r: Reaction)
    ensures Valid(cfg, s) ==> Valid(cfg, r.state)
    ensures r.state.issued >= s.issued
    ensures Valid(cfg, s) ==> r.state.longPressDate >= s.longPressDate && r.state.repeatDate >= s.repeatDate
  {
    match e
    case Moved(p) => OnChanged(cfg, s, p)
    case Ended(p, now, bounds) => HandleRelease(cfg, s, p, now, bounds)
    case LongPressFired(t) => FireLongPress(s, t)
    case RepeatFired(t) => FireRepeat(s, t)
    case Removed => Reaction(s.(removed := true), [])
  }

  /** A sequence of events handled one after the other; the callbacks are concatenated. */
  function Run(cfg: Config, s: State, events: seq<Event>): (r: Reaction)
    ensures Valid(cfg, s) ==> Valid(cfg, r.state)
    decreases |events|
  {
    if |events| == 0 then Reaction(s, [])
    else
      var first := Step(cfg, s, events[0]);
      var rest := Run(cfg, first.state, events[1..]);
      Reaction(rest.state, first.out + rest.out)
  }
}
