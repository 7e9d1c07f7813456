/**
 * `MessageBarComponent` as a whole: a state holder observed by the timed
 * visibility component, the predicate that decides whether the banner is
 * rendered, and the banner built from the two slots.
 */
module Widget {
  import opened Wrappers
  import opened MessageState
  import Visibility
  import Banner

  /** A hosting screen: the state holder's values and the component's state. */
  datatype Screen = Screen(slots: Slots, component: Visibility.State)

  /** What can happen to a screen. Each `add*` call is followed by the composition pass that reads the new key. */
  datatype Action =
    | Add(call: Call, now: int, duration: nat)
    | TimerFires(handle: nat, now: int)
    | Leave

  /** `messageBarState.error?.message`: the error string handed to the banner. */
  function ErrorString(error: Option<Exception>): (r: Option<string>)
    ensures r.Some? <==> error.Some? && error.value.message.Some?
    ensures r.Some? ==> r == error.value.message
  {
    match error
    case None => None
    case Some(e) => e.message
  }

  /** The `visible` argument of `AnimatedVisibility`, as the component writes it. */
  predicate Visible(show: bool, s: Slots) {
    (s.error.Some? && show) || (s.success.Some? && show)
  }

  /** The banner is on screen only while the component is still composed and its visibility predicate holds. */
  predicate Rendered(w: Screen) {
    !w.component.disposed && Visible(w.component.show, w.slots)
  }

  /** The banner on screen, if any. */
  function Shown(style: Banner.Style, w: Screen): (v: Option<Banner.View>)
    ensures v.Some? <==> Rendered(w)
  {
    if Rendered(w) then Some(Banner.MessageBar(style, w.slots.success, ErrorString(w.slots.error))) else None
  }

  /** A fresh state holder hosted by a component whose effect has run once, at first composition, at time `now`. */
  function Compose(now: int, duration: nat): (w: Screen)
    ensures w.component.show && !Rendered(w)
    ensures ScreenInv(w)
  {
    Screen(Initial(), Visibility.Step(Visibility.Initial(), Visibility.Observe(0, now, duration)))
  }

  /** The state holder and the component agree: the slots are exclusive and the component has not seen a key from the future. */
  ghost predicate ScreenInv(w: Screen) {
    && Exclusive(w.slots)
    && Visibility.Inv(w.component)
    && (w.component.key.Some? ==> w.component.key.value <= w.slots.updated)
  }

  function Perform(w: Screen, a: Action): (r: Screen)
    ensures ScreenInv(w) ==> ScreenInv(r)
  {
    match a
    case Add(c, now, duration) =>
      var slots := Apply(w.slots, c);
      Screen(slots, Visibility.Step(w.component, Visibility.Observe(slots.updated, now, duration)))
    case TimerFires(h, now) =>
      w.(component := Visibility.Step(w.component, Visibility.Fire(h, now)))
    case Leave =>
      w.(component := Visibility.Step(w.component, Visibility.Dispose))
  }

  function PerformAll(w: Screen, acts: seq<Action>): Screen
    decreases |acts|
  {
    if acts == [] then w else PerformAll(Perform(w, acts[0]), acts[1..])
  }

  /** Along any sequence of actions from a fresh screen, success and error are never set together. */
  lemma {:induction false} AlwaysExclusive(w: Screen, acts: seq<Action>)
    requires ScreenInv(w)
    ensures ScreenInv(PerformAll(w, acts))
    ensures Exclusive(PerformAll(w, acts).slots)
    decreases |acts|
  {
    if acts != [] {
      AlwaysExclusive(Perform(w, acts[0]), acts[1..]);
    }
  }

  /** The bar is rendered exactly when the flag is up and a message is held. */
  lemma VisibleIff(show: bool, s: Slots)
    requires Exclusive(s)
    ensures Visible(show, s) <==> show && Current(s) != Empty
  {
  }

  /** Without any message, no timer or teardown event ever renders the bar, although the first effect run raised the flag. */
  lemma {:induction false} NoMessageNoBar(w: Screen, acts: seq<Action>)
    requires w.slots == Initial()
    requires forall i | 0 <= i < |acts| :: !acts[i].Add?
    ensures !Rendered(PerformAll(w, acts))
    decreases |acts|
  {
    if acts != [] {
      assert !acts[0].Add?;
      NoMessageNoBar(Perform(w, acts[0]), acts[1..]);
    }
  }

  /** After `addSuccess(m)` the bar shows `m` in the success look, without a Copy button. */
  lemma SuccessShown(style: Banner.Style, w: Screen, m: string, now: int, duration: nat)
    requires ScreenInv(w) && !w.component.disposed
    ensures var r := Perform(w, Add(AddSuccess(m), now, duration));
      && Rendered(r)
      && Shown(style, r) == Some(Banner.View(Banner.SuccessLook(style), m, false))
  {
  }

  /**
   * After `addError(Exception(msg))` the bar shows `msg` in the error look with a
   * Copy button, and a tap on Copy puts exactly `msg` on the clipboard.
   */
  lemma ErrorShown(style: Banner.Style, w: Screen, msg: string, now: int, duration: nat)
    requires ScreenInv(w) && !w.component.disposed
    ensures var r := Perform(w, Add(AddError(Exception(Some(msg))), now, duration));
      && Rendered(r)
      && Shown(style, r) == Some(Banner.View(Banner.ErrorLook(style), msg, true))
      && Banner.OnCopy(style, ErrorString(r.slots.error)) == Some(Banner.CopyEffect(msg, style.showToastOnCopy))
  {
  }

  /**
   * The same call twice, at `t1` and then `t2`, leaves the same content but
   * restarts the countdown: the bar is shown, the one pending hide is due at
   * `t2 + duration`, and the first call's timer can no longer hide it.
   */
  lemma RepeatRestartsCountdown(w: Screen, c: Call, t1: int, t2: int, duration: nat)
    requires ScreenInv(w) && !w.component.disposed
    ensures var w1 := Perform(w, Add(c, t1, duration));
      var w2 := Perform(w1, Add(c, t2, duration));
      && Content(w2.slots) == Content(w1.slots)
      && Rendered(w2)
      && w2.component.pending == Some(Visibility.Timer(w2.component.epoch, t2 + duration))
      && forall t: int :: Perform(w2, TimerFires(w1.component.epoch, t)) == w2
  {
    var w1 := Perform(w, Add(c, t1, duration));
    Visibility.KeyChangeRestarts(w1.component, w1.slots.updated + 1, t2, duration);
  }

  /** Once the component has left the composition, no action changes it. */
  lemma {:induction false} LeftStaysLeft(w: Screen, acts: seq<Action>)
    requires w.component.disposed
    ensures PerformAll(w, acts).component == w.component
    decreases |acts|
  {
    if acts != [] {
      LeftStaysLeft(Perform(w, acts[0]), acts[1..]);
    }
  }

  /**
   * After the screen is left, nothing the timer does changes the component,
   * and no later action, an `add*` call included, renders the bar.
   */
  lemma {:induction false} NoFireAfterLeave(w: Screen, es: seq<Visibility.Event>, acts: seq<Action>)
    ensures Visibility.Run(Perform(w, Leave).component, es) == Perform(w, Leave).component
    ensures !Rendered(PerformAll(Perform(w, Leave), acts))
  {
    Visibility.DisposeIsFinal(w.component, es);
    LeftStaysLeft(Perform(w, Leave), acts);
  }

  // An exception without a message: the bar is rendered, yet in the success look.

  /**
   * As written, `addError` with an exception whose message is null renders the
   * bar (the error slot is set) but hands the banner a null error string, so
   * the banner uses the success icon and colours, offers no Copy button and
   * reads "Unknown".
   */
  lemma MessagelessErrorLooksLikeSuccess(style: Banner.Style, w: Screen, now: int, duration: nat)
    requires ScreenInv(w) && !w.component.disposed
    ensures var r := Perform(w, Add(AddError(Exception(None)), now, duration));
      && Current(r.slots).Error?
      && Shown(style, r) == Some(Banner.View(Banner.SuccessLook(style), "Unknown", false))
  {
  }

  /**
   * The banner with its look chosen on the error slot rather than on the error
   * string: an error always looks like an error; the text and the Copy button
   * are as before.
   */
  function IntendedMessageBar(style: Banner.Style, s: Slots): (v: Banner.View)
    requires Exclusive(s)
    ensures v.look == if Current(s).Error? then Banner.ErrorLook(style) else Banner.SuccessLook(style)
    ensures v.copyButton <==> ErrorString(s.error).Some?
  {
    var v := Banner.MessageBar(style, s.success, ErrorString(s.error));
    v.(look := if s.error.Some? then Banner.ErrorLook(style) else Banner.SuccessLook(style))
  }

  /** The corrected banner differs from the written one only for an error without a message. */
  lemma IntendedAgreesWithMessage(style: Banner.Style, s: Slots)
    requires Exclusive(s)
    ensures IntendedMessageBar(style, s) == Banner.MessageBar(style, s.success, ErrorString(s.error))
        <==> !(s.error.Some? && s.error.value.message.None?) || Banner.ErrorLook(style) == Banner.SuccessLook(style)
  {
  }
}
