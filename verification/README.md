# GestureButton interaction model

A Dafny model of the interaction state machine inside the SwiftUI
`GestureButton` of the ButtonAction repository. The button listens to one
drag gesture (`onChanged` / `onEnded`). It also receives two delayed closures
that it schedules itself: one for long press and one for repeat. From these
it produces semantic callbacks:

- press
- drag start, drag change and drag end
- double tap
- release inside or release outside
- end
- long press
- repeat start and repeat stop (calls into the repeat timer)

The model has three modules:

- `Geometry` (`geometry.dfy`) holds points, sizes and the strict-interior
  containment test that classifies a release.
- `GestureButton` (`gesture_button.dfy`) holds the data model:
  - the configuration, with one flag per optional action and the double-tap timeout;
  - the state: `pressed`, `removed`, `releaseDate`, `longPressDate`,
    `repeatDate`, a token counter, and the queued delayed closures;
  - the input events and the callbacks.

  It also holds one function per handler of the source, plus `Step` (one
  event) and `Run` (a sequence of events).
- `GestureTraces` (`gesture_traces.dfy`) proves properties over single steps
  and over event traces:
  - the fixed callback order;
  - press idempotence;
  - the double-tap pair rule;
  - staleness of delayed closures after a release or a removal;
  - the end-to-end tap scenarios.

Modelling decisions:

- The dates that serve as staleness tokens become a counter. Each use takes
  the next value, so every token is fresh. The release date stays a real
  instant or the sentinel `DistantPast`.
- The main dispatch queue becomes two sets of queued tokens. A firing event
  consumes the queued closure with its token. A firing for a token that is
  not queued has no closure to run, so it does nothing.
- Timers are only scheduled when the matching action exists, as in the code.
  So a long-press firing that passes the checks always has an action to invoke.
- The double-tap test and the release-date reset run whether or not a
  double-tap action exists. Only the `DoubleTap` callback depends on the action.

Four points where the code does something a reader might not expect; the model follows the code:

- **Release order.** The double-tap test runs before drag end. The order is
  repeat stop, double tap, drag end, inside or outside, end
  (`GestureTraces.ReleaseCallbacksOrdered`).
- **Drag change on the first event.** Drag change fires on every `onChanged`,
  including the one that presses (`GestureTraces.EveryMoveReportsChange`).
- **First tap.** The first release is measured against the creation time, not
  against a release that never happened. A tap released strictly within the
  timeout of creation double-taps (`GestureTraces.FirstTapMeasuredFromCreation`).
  The end-to-end scenarios therefore create the button long before the first tap.
- **Long press and repeat together.** The two delayed closures capture
  separate tokens, so holding the button long enough invokes long press and
  also starts the repeat timer in the same press cycle
  (`GestureTraces.BothTimersInOneCycle`).

## Model

| member | source | states |
|---|---|---|
| Geometry.Contains | TestButtonAction/GestureButton.swift:196-202 | The guard-based containment test accepts a point exactly when it lies in the open rectangle 0 < x < width, 0 < y < height; a point on any edge is rejected. |
| GestureButton.Init | TestButtonAction/GestureButton.swift:91-104 | A new button is not pressed and not removed, its last release is its creation time, no closure is queued, and the state satisfies the reachable-state invariant for every configuration. |
| GestureButton.ScheduleLongPress | TestButtonAction/GestureButton.swift:162-166 | With a long-press action, the current long-press token becomes a fresh token newer than any issued, and its closure joins the queue. Without one, the state is untouched. |
| GestureButton.ScheduleRepeat | TestButtonAction/GestureButton.swift:174-178 | The same for the repeat closure: fresh current token and queued closure when a repeat action exists, no change otherwise. |
| GestureButton.PressCallbacks | TestButtonAction/GestureButton.swift:140-141 | The callbacks of a press: press is invoked iff configured, drag start at the pressing location iff configured, no other drag location and no drag change. |
| GestureButton.HandlePress | TestButtonAction/GestureButton.swift:137-144 | While pressed, nothing changes and nothing is invoked. Otherwise the button becomes pressed and invokes the press callbacks. A fresh long-press or repeat token is queued exactly when that action exists, and the other token is left alone. |
| GestureButton.OnChanged | TestButtonAction/GestureButton.swift:123-126 | While pressed, the state is unchanged and only drag change is invoked. In every case drag change is reported at the event location when configured, and it is the last callback. |
| GestureButton.ReleaseCallbacks | TestButtonAction/GestureButton.swift:151-159 | A release's callbacks start with repeat stop and end with end when configured. Double tap is invoked iff configured and the test passed, and drag end iff configured. Inside is invoked iff configured and inside; outside iff configured and not inside. |
| GestureButton.WithinDoubleTapWindow | TestButtonAction/GestureButton.swift:186-191 | A release double-taps iff strictly less than the timeout has passed since the last release; the distantPast sentinel never double-taps, and a release exactly one timeout later does not. |
| GestureButton.HandleRelease | TestButtonAction/GestureButton.swift:146-160 | Without a press, nothing changes and nothing is invoked. Otherwise the button is released and both current tokens become newer than every issued token. The release date becomes distantPast exactly when the release fell strictly within the double-tap window, else the release time. The callbacks are the release callbacks for that window test and the strict-interior test. |
| GestureButton.FireLongPress | TestButtonAction/GestureButton.swift:167-171 | Firing consumes the queued closure and changes nothing else. Pressed state is kept. Long press is invoked, at most once, exactly when the closure was queued, the view is not removed and its token is still current. |
| GestureButton.FireRepeat | TestButtonAction/GestureButton.swift:179-183 | Firing consumes the queued closure and changes nothing else. Repeat start is invoked, at most once, exactly when the closure was queued, the view is not removed and its token is still current. |
| GestureButton.Step | TestButtonAction/GestureButton.swift:117-131 | Every event keeps the reachable-state invariant, and current tokens never go back. |
| GestureButton.Run | TestButtonAction/GestureButton.swift:117-131 | Any sequence of events from a valid state ends in a valid state. |
| GestureTraces.StepCallbacks | TestButtonAction/GestureButton.swift:106-131 | Only the removal sets `removed`. Only releases touch the release date or invoke double tap. Long press and repeat start come only from a firing of the current token. |
| GestureTraces.TimerActionsNeedConfiguration | TestButtonAction/GestureButton.swift:162-184 | From a reachable state, no step invokes long press without a long-press action or starts the repeat timer without a repeat action. |
| GestureTraces.TimerActionsNeedConfigurationRun | TestButtonAction/GestureButton.swift:162-184 | The same over any trace from a reachable state. |
| GestureTraces.LongPressAtMostOncePerCycle | TestButtonAction/GestureButton.swift:162-172 | Within a press cycle (no release arrives), long press is invoked at most once, and not at all once the closure with the current token has gone. |
| GestureTraces.RepeatStartAtMostOncePerCycle | TestButtonAction/GestureButton.swift:174-184 | Within a press cycle, the repeat timer is started at most once, and not at all once the closure with the current token has gone. |
| GestureTraces.PressCallbacksOrdered | TestButtonAction/GestureButton.swift:140-141 | Press comes before drag start, each at most once, and nothing else is invoked. |
| GestureTraces.PressOrdered | TestButtonAction/GestureButton.swift:123-141 | The callbacks of an `onChanged` come in the order press, drag start, drag change, each at most once, and nothing else is invoked. |
| GestureTraces.ReleaseCallbacksOrdered | TestButtonAction/GestureButton.swift:151-159 | Release callbacks come in the order repeat stop, double tap, drag end, inside/outside, end. Each comes at most once, so inside and outside never both fire. Nothing else is invoked. |
| GestureTraces.ReleaseOrdered | TestButtonAction/GestureButton.swift:146-159 | Every release the button handles invokes its callbacks in that order and nothing else. |
| GestureTraces.ReleaseMakesQueuedStale | TestButtonAction/GestureButton.swift:148-150 | After a release, every queued long-press and repeat closure carries a token older than the current one. |
| GestureTraces.StaleLongPressNeverFires | TestButtonAction/GestureButton.swift:162-172 | From a valid state whose current long-press token is newer than a bound, no trace whose long-press firings all carry tokens up to that bound invokes long press. |
| GestureTraces.StaleRepeatNeverStarts | TestButtonAction/GestureButton.swift:174-184 | The same for repeat: firings with tokens no newer than the bound never start the repeat timer, over any trace. |
| GestureTraces.RunKeepsTokens | TestButtonAction/GestureButton.swift:146-184 | Over any trace from a reachable state, the current long-press and repeat tokens never go back: a release and a new schedule only ever replace them with newer dates. |
| GestureTraces.ScheduledBeforeReleaseStaysStale | TestButtonAction/GestureButton.swift:146-184 | After a release, every later firing of a closure scheduled up to the release invokes nothing, at whatever point of any later trace it arrives, later presses and their own firings included. |
| GestureTraces.OnlyPreReleaseFiringsInvokeNothing | TestButtonAction/GestureButton.swift:146-184 | For traces after a release in which only closures scheduled up to the release fire, neither long press nor repeat start is invoked at all. |
| GestureTraces.NothingFiresAfterRemoval | TestButtonAction/GestureButton.swift:110 | Once the view is removed, no trace invokes long press or starts the repeat timer. |
| GestureTraces.LongPressFiresOnce | TestButtonAction/GestureButton.swift:167-171 | A long-press closure fires at most once: a second firing of the same token changes nothing and invokes nothing. |
| GestureTraces.PressOncePerCycle | TestButtonAction/GestureButton.swift:137-141 | Over any run of `onChanged` events, press and drag start are each invoked exactly once if the button started unpressed and the action is configured, and never otherwise. Drag start is reported only at the first event's location. The button is pressed afterwards. |
| GestureTraces.EveryMoveReportsChange | TestButtonAction/GestureButton.swift:123-126 | With a drag action, every `onChanged` event, the pressing one included, reports a drag change at its location. |
| GestureTraces.NoDoubleTapFromDistantPast | TestButtonAction/GestureButton.swift:186-191 | From a release date of distantPast, nothing double-taps up to and including the next event that is a release. |
| GestureTraces.DoubleTapsDoNotChain | TestButtonAction/GestureButton.swift:152 | A release inside the window invokes double tap iff configured. The next release never double-taps, whatever events come in between. |
| GestureTraces.ReleaseArmsNextDoubleTap | TestButtonAction/GestureButton.swift:186-191 | After a release outside the window, the next tap double-taps iff double tap is configured and the tap is released strictly less than the timeout later. |
| GestureTraces.FirstTapMeasuredFromCreation | TestButtonAction/GestureButton.swift:100-101 | The first tap of a new button double-taps iff double tap is configured and the tap is released strictly less than the timeout after creation. |
| GestureTraces.EdgeReleaseIsOutside | TestButtonAction/GestureButton.swift:154-158 | A release on any edge of the button never counts as inside. It invokes outside iff an outside action exists. |
| GestureTraces.SingleTapScenario | TestButtonAction/GestureButton.swift:123-159 | One tap at (50, 50) on a 100 by 100 button, long after creation, invokes exactly press, drag start, drag change, repeat stop, drag end, release inside, end. |
| GestureTraces.TripleTapScenario | TestButtonAction/GestureButton.swift:152 | Taps released at 0.0, 0.2 and 0.25 with timeout 0.3: only the second double-taps. |
| GestureTraces.BothTimersInOneCycle | TestButtonAction/GestureButton.swift:162-184 | One press with every action configured, followed by both closures coming back, invokes exactly press, drag start, drag change, long press, repeat start: the two timers carry separate tokens, so both fire in one press cycle. |

## Left out

- Rendering, layout and accessibility (`body`, `label`, `overlay`, `GeometryReader`, `contentShape`, accessibility traits) are not modelled. They belong to the UI framework.
- The `isPressedBinding` sync (GestureButton.swift:109) only mirrors `pressed` to an outside binding, so it is not modelled.
- Delays and real time (`longPressDelay`, `repeatDelay`, `DispatchQueue.main.asyncAfter`) are not modelled. A timer firing is an input event carrying the captured token, and the model places no constraint on when it arrives.
- `RepeatGestureTimer` and `GestureButtonDefaults` are not part of this model. The repeat timer appears only as `RepeatStart` and `RepeatStop`. Its tick cadence, and what it does when started while running, are not modelled.
- Floating-point `CGFloat`, `TimeInterval` and `Date` arithmetic is modelled with exact reals. `distantPast` is a sentinel that never lies within the window. The real `distantPast` is a finite date, which only differs for timeouts of many centuries.
- The release handler reads the clock twice: once for the interval, once for the new release date. The model uses one `now` for both.
- Two `Date()` values can compare equal, so an old token could collide with a new one. The model does not cover this: tokens come from a counter and are always fresh.
- The arguments passed to the actions are modelled only as the drag location. The rest of the drag value is not modelled.
- The demo screen (`ContentView.swift`) is not part of this model.
