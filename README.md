# MessageBar: a verified model of the banner's state and timed visibility

MessageBarCompose is a Jetpack Compose widget that overlays a transient banner
on a screen. The banner shows either a success message or an error. It hides
itself after a configurable duration, and for errors it offers a Copy button.
This project models in Dafny the two pieces of the widget that carry logic:

- **The state holder** (`MessageBarState`). It has two nullable slots,
  `success` and `error`, and `addSuccess`/`addError` overwrite them in place.
  Module `MessageState` holds the class and a pure specification of it: one
  call (`Apply`) and a call sequence replayed on a fresh holder (`Replay`).
- **The component** (`MessageBarComponent`). It has a `showMessageBar` flag and
  a `DisposableEffect` keyed on the state's change key. Each run of the effect
  raises the flag and schedules a hide on a `java.util.Timer`. Disposing the run
  cancels that timer. Module `Visibility` models this as a class with one method
  per event, specified by a pure step function (`Step`). The timer thread
  becomes discrete `Fire(handle, now)` events on an integer clock, and the handle
  is the number of the run that scheduled it.
- **The banner** (`MessageBar`). Module `Banner` covers the text fallback, the
  look (container colour, icon, tint, text colour, line limit) chosen by the
  error test, the Copy button, and the effect of a tap on it.
- Module `Widget` puts the pieces together. A screen is a state holder plus a
  component, and every `add*` call is followed by the composition pass that
  reads the new key. The module also holds the render predicate of
  `AnimatedVisibility` and scenario lemmas that follow the instrumented tests.

Points where the model follows the code rather than the widget's intended design:

- The change key `updated` read by the effect (ContentWithMessageBar.kt:125) is
  not declared in MessageBarState.kt. That file also wraps its slots in
  `mutableStateOf`, so `messageBarState.error?.message` at :122 would not type
  against it. The model assumes the slots are read through their wrappers and
  that `updated` is a counter which every `add*` call bumps. This is an
  assumption of the model, not behaviour of MessageBarState.kt. A boolean
  toggle would also serve as a key, but two toggles within one composition
  frame would cancel out.
- The effect also runs at the first composition, before any message exists. The
  flag is therefore raised with no message held. The bar stays hidden only
  because both slots are null (`Widget.Compose`, `Widget.NoMessageNoBar`).
- An error whose exception has no message is not turned into the text
  "Unknown" by the state holder. The slot keeps the exception, and "Unknown" is
  the banner's last text fallback.
- The code has no manual `dismissNow`, so the model has none either.

## Model

| member | source | states |
|---|---|---|
| MessageState.Initial | messagebar/src/main/java/com/stevdzasan/messagebar/MessageBarState.kt:6-9 | a fresh holder has both slots null, so nothing is set |
| MessageState.Current | messagebar/src/main/java/com/stevdzasan/messagebar/MessageBarState.kt:5-9 | the one message an exclusive state holds is Empty exactly when both slots are null |
| MessageState.Apply | messagebar/src/main/java/com/stevdzasan/messagebar/MessageBarState.kt:11-19 | after any `add*` call, success and error are not both set, and the change key differs from before |
| MessageState.ApplyInstallsCall | messagebar/src/main/java/com/stevdzasan/messagebar/MessageBarState.kt:11-19 | after `addSuccess(m)` the pair is (m, null), and after `addError(e)` it is (null, e), whatever was held before |
| MessageState.ReplayExclusive | messagebar/src/main/java/com/stevdzasan/messagebar/MessageBarState.kt:5-19 | after any sequence of calls from a fresh holder, success and error are never both set |
| MessageState.ReplayKey | messagebar/src/main/java/com/stevdzasan/messagebar/ContentWithMessageBar.kt:125 | the assumed change key counts the calls made so far |
| MessageState.KeysDistinct | messagebar/src/main/java/com/stevdzasan/messagebar/ContentWithMessageBar.kt:125 | two different moments of a call sequence carry different keys, so every call retriggers the effect |
| MessageState.LastCallWins | messagebar/src/main/java/com/stevdzasan/messagebar/MessageBarState.kt:11-19 | the content after a non-empty sequence depends only on its last call, and it holds that call's message |
| MessageState.RepeatedCall | messagebar/src/main/java/com/stevdzasan/messagebar/MessageBarState.kt:11-19 | repeating a call leaves the same content but still changes the key |
| MessageState.MessageBarState.constructor | messagebar/src/main/java/com/stevdzasan/messagebar/MessageBarState.kt:6-9 | a new holder has both slots null and satisfies the exclusion invariant |
| MessageState.MessageBarState.AddSuccess | messagebar/src/main/java/com/stevdzasan/messagebar/MessageBarState.kt:11-14 | sets success to the message and clears error in place, bumps the key and keeps the exclusion invariant |
| MessageState.MessageBarState.AddError | messagebar/src/main/java/com/stevdzasan/messagebar/MessageBarState.kt:16-19 | sets error to the exception and clears success in place, bumps the key and keeps the exclusion invariant |
| Visibility.Initial | messagebar/src/main/java/com/stevdzasan/messagebar/ContentWithMessageBar.kt:121 | the flag starts false, with no timer and no key seen |
| Visibility.Step | messagebar/src/main/java/com/stevdzasan/messagebar/ContentWithMessageBar.kt:125-135 | every event keeps the invariant (one live timer at most, belonging to the latest run, only while shown), and after disposal no event changes anything |
| Visibility.RunPreservesInv | messagebar/src/main/java/com/stevdzasan/messagebar/ContentWithMessageBar.kt:125-135 | the invariant holds along every sequence of events |
| Visibility.DisposeIsFinal | messagebar/src/main/java/com/stevdzasan/messagebar/ContentWithMessageBar.kt:131-134 | disposing cancels the live timer, and no later event, a timer fire included, has any effect |
| Visibility.KeyChangeRestarts | messagebar/src/main/java/com/stevdzasan/messagebar/ContentWithMessageBar.kt:125-134 | on a key change the old timer is cancelled and the flag is raised. Exactly one new hide is pending, due `duration` after this change, and no earlier timer can hide the bar |
| Visibility.OnlyLatestTimerHides | messagebar/src/main/java/com/stevdzasan/messagebar/ContentWithMessageBar.kt:126-130 | the flag drops only on a fire of the latest run's timer at or after its deadline |
| Visibility.FireHides | messagebar/src/main/java/com/stevdzasan/messagebar/ContentWithMessageBar.kt:128-130 | the due fire of the live timer clears the flag, and nothing else changes except that the timer is spent |
| Visibility.QuietKeepsState | messagebar/src/main/java/com/stevdzasan/messagebar/ContentWithMessageBar.kt:125-130 | recompositions with the same key and fires that are stale or early leave the component unchanged |
| Visibility.AutoHide | messagebar/src/main/java/com/stevdzasan/messagebar/ContentWithMessageBar.kt:125-130 | after a key change at t the bar stays shown through quiet events. The new timer's fire at any t2 >= t + duration hides it, and no later fire hides it again |
| Visibility.MessageBarComponent.constructor | messagebar/src/main/java/com/stevdzasan/messagebar/ContentWithMessageBar.kt:121 | the component starts with the flag false and no timer |
| Visibility.MessageBarComponent.Observe | messagebar/src/main/java/com/stevdzasan/messagebar/ContentWithMessageBar.kt:125-134 | on a new key the old timer is cancelled, the flag is raised and one timer is scheduled at now + duration. With the same key, or after disposal, nothing changes |
| Visibility.MessageBarComponent.TimerFired | messagebar/src/main/java/com/stevdzasan/messagebar/ContentWithMessageBar.kt:128-130 | the due live timer clears the flag, and any other fire changes nothing |
| Visibility.MessageBarComponent.Dispose | messagebar/src/main/java/com/stevdzasan/messagebar/ContentWithMessageBar.kt:131-134 | `onDispose` cancels the timer and ends the component |
| Banner.MessageBar | messagebar/src/main/java/com/stevdzasan/messagebar/ContentWithMessageBar.kt:186-247 | container, icon, tint, text colour and line limit all follow the one test "error string non-null". The text is the message, else the error string, else "Unknown". The Copy button exists iff the error string is non-null |
| Banner.OnCopy | messagebar/src/main/java/com/stevdzasan/messagebar/ContentWithMessageBar.kt:223-235 | a tap on Copy is possible iff the error string is non-null. It puts exactly that string on the clipboard and shows the toast iff `showToastOnCopy` is set |
| Widget.ErrorString | messagebar/src/main/java/com/stevdzasan/messagebar/ContentWithMessageBar.kt:122 | the banner's error string is non-null iff an exception is held and it has a message, and then it is that message |
| Widget.Shown | messagebar/src/main/java/com/stevdzasan/messagebar/ContentWithMessageBar.kt:142-163 | a banner is on screen exactly when the component is still composed and the visibility predicate holds |
| Widget.Compose | messagebar/src/main/java/com/stevdzasan/messagebar/ContentWithMessageBar.kt:121-135 | at first composition the effect raises the flag, yet the bar is not rendered because no message is held |
| Widget.Perform | messagebar/src/main/java/com/stevdzasan/messagebar/ContentWithMessageBar.kt:125-135 | every action keeps the screen invariant: exclusive slots, the component invariant, and no component key ahead of the holder's |
| Widget.AlwaysExclusive | messagebar/src/main/java/com/stevdzasan/messagebar/MessageBarState.kt:11-19 | along any sequence of adds, timer fires and teardown, success and error are never both set |
| Widget.VisibleIff | messagebar/src/main/java/com/stevdzasan/messagebar/ContentWithMessageBar.kt:142-144 | the bar is rendered iff the flag is up and a success or an error is held |
| Widget.NoMessageNoBar | messagebar/src/main/java/com/stevdzasan/messagebar/ContentWithMessageBar.kt:142-144 | with no message ever added, no sequence of timer fires or teardown renders the bar |
| Widget.SuccessShown | messagebar/src/main/java/com/stevdzasan/messagebar/ContentWithMessageBar.kt:213-223 | after `addSuccess(m)` the bar is rendered with text m, in the success look, without a Copy button |
| Widget.ErrorShown | messagebar/src/main/java/com/stevdzasan/messagebar/ContentWithMessageBar.kt:213-234 | after `addError(Exception(msg))` the bar is rendered with text msg, in the error look, with a Copy button, and Copy puts exactly msg on the clipboard |
| Widget.RepeatRestartsCountdown | messagebar/src/main/java/com/stevdzasan/messagebar/ContentWithMessageBar.kt:125-134 | the same call at t1 and again at t2 keeps the content but restarts the countdown. The bar is shown, the one pending hide is due at t2 + duration, and the first call's timer is stale |
| Widget.LeftStaysLeft | messagebar/src/main/java/com/stevdzasan/messagebar/ContentWithMessageBar.kt:131-134 | once the component has left the composition, no action changes it |
| Widget.NoFireAfterLeave | messagebar/src/main/java/com/stevdzasan/messagebar/ContentWithMessageBar.kt:131-163 | once the screen is left, no timer event changes the component, and no later action, an add call included, renders the bar |
| Widget.MessagelessErrorLooksLikeSuccess | messagebar/src/main/java/com/stevdzasan/messagebar/ContentWithMessageBar.kt:190-223 | as written, an exception without a message is held as an error but shown in the success look, as "Unknown", without a Copy button |
| Widget.IntendedMessageBar | messagebar/src/main/java/com/stevdzasan/messagebar/ContentWithMessageBar.kt:190-220 | corrected banner: the look is the error look exactly when an error is held |
| Widget.IntendedAgreesWithMessage | messagebar/src/main/java/com/stevdzasan/messagebar/ContentWithMessageBar.kt:190-220 | the corrected banner equals the written one except for an exception without a message (when the two looks differ) |

## Findings

| source | as written | input that shows it | evidently intended | confidence | as-written member | corrected member |
|---|---|---|---|---|---|---|
| messagebar/src/main/java/com/stevdzasan/messagebar/ContentWithMessageBar.kt:122 | the look is chosen on `error?.message != null`, while visibility tests the `error` slot itself | `addError(Exception())`, an exception with a null message | an error is always shown in the error look (icon, colours, line limit) | medium, not executed | Widget.MessagelessErrorLooksLikeSuccess | Widget.IntendedMessageBar |

The rest of the model keeps the code as written (`Widget.Shown` uses
`Banner.MessageBar`). `Widget.IntendedAgreesWithMessage` shows that the
correction changes nothing except for an exception without a message. So every
property proved of the written banner for messaged errors and for successes also
holds of the corrected one.

## Left out

- Compose layout and styling (`Box`, `Column`, `Row`, padding, `Modifier`, test tags) and the message-bar position. These are presentation. Icons and colours are opaque tokens that are only selected between.
- Enter and exit animations (`expandVertically`, `shrinkVertically`, `tween`). These are presentation only.
- The threading of `java.util.Timer`, its daemon thread and `purge()`. They are replaced by discrete fire events on an integer clock. A cancelled timer is one that is no longer pending.
- Visibility.KeyChangeRestarts: holds only because a model `Fire` is atomic with respect to a cancel. `Timer.cancel()` does not stop a hide that the timer thread has already started, so in the code such a hide can clear the flag just after a new run raised it. The model does not capture that race.
- Visibility.OnlyLatestTimerHides: holds only because a model `Fire` is atomic with respect to a cancel. `Timer.cancel()` does not stop a hide that the timer thread has already started, so in the code such a hide can come from an older run than the latest one. The model does not capture that race.
- Visibility.DisposeIsFinal: holds only because a model `Fire` is atomic with respect to a cancel. `Timer.cancel()` does not stop a hide that the timer thread has already started, so in the code such a hide can write the flag after `onDispose` has run. The model does not capture that race.
- Widget.NoFireAfterLeave: holds only because a model `Fire` is atomic with respect to a cancel. `Timer.cancel()` does not stop a hide that the timer thread has already started, so in the code such a hide can write the flag after teardown. The model does not capture that race.
- A negative `visibilityDuration`, for which `Timer.schedule` throws. The model's duration is a `nat`.
- A `visibilityDuration` so large that the deadline overflows `Long`, for which `Timer.schedule` throws `IllegalArgumentException`. The clock is an unbounded integer.
- The platform calls `LocalClipboardManager.setText` and `Toast.makeText`. A tap on Copy returns the clipboard text and a toast flag instead.
- `remember`, `rememberUpdatedState` and `mutableStateOf` reactivity, and `rememberMessageBarState`. These are framework recomposition machinery. A composition pass is the `Observe` event, which each `add*` call is assumed to be followed by.
- The `@Preview` functions, the demo app and the instrumented tests. The tests' scenarios appear as `Widget.SuccessShown`, `Widget.ErrorShown` and `Widget.NoMessageNoBar`.
