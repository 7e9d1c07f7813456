/**
 * The timed visibility of the banner: the `showMessageBar` flag of
 * `MessageBarComponent` and the `DisposableEffect` keyed on the state's change
 * key. Each run of the effect sets the flag and schedules a hide on a timer;
 * disposing the run cancels that timer.
 *
 * The timer thread is replaced by discrete events: a run creates a timer with a
 * fresh handle (the run's epoch) and a deadline on an integer clock, and the
 * timer thread later delivers `Fire(handle, now)`. A cancelled timer is one that
 * is no longer pending, so a late event for it has no effect. Each event is
 * atomic: a hide that the timer thread has already begun is not interleaved with
 * a cancel, which `java.util.Timer` does not guarantee.
 */
module Visibility {
  import opened Wrappers

  /** A scheduled hide: the handle of the run that created it and the clock time it is due. */
  datatype Timer = Timer(handle: nat, deadline: int)

  /**
   * The component's state: the flag, the live timer if any, the number of runs
   * launched so far, the key of the current run (None before the first
   * composition) and whether the component has left the composition.
   */
  datatype State = State(show: bool, pending: Option<Timer>, epoch: nat, key: Option<nat>, disposed: bool)

  datatype Event =
    | Observe(key: nat, now: int, duration: nat)  // a composition pass that reads the key
    | Fire(handle: nat, now: int)                 // the timer thread runs a scheduled hide
    | Dispose                                     // the component leaves the composition

  /** The component when first composed, before its effect has run. */
  function Initial(): (s: State)
    ensures !s.show && s.pending.None? && s.key.None?
  {
    State(false, None, 0, None, false)
  }

  /**
   * At most one timer is live; it belongs to the latest run, and while it is
   * live the bar is shown and the component is still composed.
   */
  ghost predicate Inv(s: State) {
    && (s.pending.Some? ==> s.pending.value.handle == s.epoch && s.show && !s.disposed)
    && (s.key.None? ==> s.epoch == 0 && !s.show && s.pending.None?)
  }

  /** Is `h` the live timer of `s`, and is it due at `now`? */
  predicate Due(s: State, h: nat, now: int) {
    s.pending.Some? && s.pending.value.handle == h && s.pending.value.deadline <= now
  }

  /** The effect of one event. */
  function Step(s: State, e: Event): (r: State)
    ensures Inv(s) ==> Inv(r)
    ensures s.disposed ==> r == s
  {
    if s.disposed then s
    else match e
      case Observe(k, now, duration) =>
        if s.key == Some(k) then s
        else State(true, Some(Timer(s.epoch + 1, now + duration)), s.epoch + 1, Some(k), false)
      case Fire(h, now) =>
        if Due(s, h, now) then s.(show := false, pending := None) else s
      case Dispose =>
        s.(pending := None, disposed := true)
  }

  /** The state after a sequence of events, first event first. */
  function Run(s: State, es: seq<Event>): State
    decreases |es|
  {
    if es == [] then s else Run(Step(s, es[0]), es[1..])
  }

  /** Events that neither change the key, nor dispose, nor hit the live timer of `s` at or after its deadline. */
  predicate Quiet(s: State, es: seq<Event>) {
    forall i | 0 <= i < |es| ::
      match es[i]
      case Observe(k, _, _) => s.key == Some(k)
      case Fire(h, now) => !Due(s, h, now)
      case Dispose => false
  }

  /** The invariant holds along every sequence of events. */
  lemma {:induction false} RunPreservesInv(s: State, es: seq<Event>)
    requires Inv(s)
    ensures Inv(Run(s, es))
    decreases |es|
  {
    if es != [] {
      RunPreservesInv(Step(s, es[0]), es[1..]);
    }
  }

  /** Disposing cancels the live timer, and afterwards no event has any effect. */
  lemma {:induction false} DisposeIsFinal(s: State, es: seq<Event>)
    ensures Step(s, Dispose).pending.None? || s.disposed
    ensures Run(Step(s, Dispose), es) == Step(s, Dispose)
    decreases |es|
  {
    if es != [] {
      DisposeIsFinal(s, es[1..]);
    }
  }

  /** On a key change the previous timer is cancelled, the bar is shown and exactly one new hide is pending, due `duration` after this change. */
  lemma KeyChangeRestarts(s: State, k: nat, now: int, duration: nat)
    requires Inv(s) && !s.disposed && s.key != Some(k)
    ensures var r := Step(s, Observe(k, now, duration));
      && r.show && r.key == Some(k) && r.epoch == s.epoch + 1
      && r.pending == Some(Timer(r.epoch, now + duration))
      && forall h: nat, t: int | h <= s.epoch :: Step(r, Fire(h, t)) == r
  {
  }

  /** Only the timer of the latest run can hide the bar, and only once its deadline has come. */
  lemma OnlyLatestTimerHides(s: State, e: Event)
    requires Inv(s)
    requires s.show && !Step(s, e).show
    ensures e.Fire? && e.handle == s.epoch
    ensures s.pending.Some? && s.pending.value.deadline <= e.now
  {
  }

  /** When the live timer fires, the flag drops and nothing else changes but the timer being spent. */
  lemma FireHides(s: State, now: int)
    requires Inv(s) && s.pending.Some? && s.pending.value.deadline <= now
    ensures Step(s, Fire(s.epoch, now)) == s.(show := false, pending := None)
  {
  }

  /** Until its deadline is hit, a live timer keeps the bar shown: quiet events change nothing. */
  lemma {:induction false} QuietKeepsState(s: State, es: seq<Event>)
    requires Quiet(s, es)
    ensures Run(s, es) == s
    decreases |es|
  {
    if es != [] {
      assert Step(s, es[0]) == s;
      assert Quiet(s, es[1..]) by {
        forall i | 0 <= i < |es[1..]|
          ensures match es[1..][i]
            case Observe(k, _, _) => s.key == Some(k)
            case Fire(h, now) => !Due(s, h, now)
            case Dispose => false
        {
          assert es[1..][i] == es[i + 1];
        }
      }
      QuietKeepsState(s, es[1..]);
    }
  }

  /**
   * Auto-hide: after a key change at time `t`, the bar stays shown through any
   * quiet events, and the fire of the new timer at any time `t2 >= t + duration`
   * hides it, after which no further fire hides it again.
   */
  lemma AutoHide(s: State, k: nat, t: int, duration: nat, es: seq<Event>, t2: int, h: nat, t3: int)
    requires Inv(s) && !s.disposed && s.key != Some(k)
    requires Quiet(Step(s, Observe(k, t, duration)), es)
    requires t2 >= t + duration
    ensures var r := Step(s, Observe(k, t, duration));
      && Run(r, es).show
      && !Step(Run(r, es), Fire(r.epoch, t2)).show
      && Step(Step(Run(r, es), Fire(r.epoch, t2)), Fire(h, t3)) == Step(Run(r, es), Fire(r.epoch, t2))
  {
    var r := Step(s, Observe(k, t, duration));
    QuietKeepsState(r, es);
  }

  /** The `MessageBarComponent` with its `showMessageBar` flag and the timer of its current effect run. */
  class MessageBarComponent {
    var show: bool
    var pending: Option<Timer>
    var epoch: nat
    var key: Option<nat>
    var disposed: bool

    function Model(): State
      reads this
    {
      State(show, pending, epoch, key, disposed)
    }

    ghost predicate Valid()
      reads this
    {
      Inv(Model())
    }

    /** `remember { mutableStateOf(false) }`: composed, effect not yet run. */
    constructor ()
      ensures Valid()
      ensures Model() == Initial()
    {
      show := false;
      pending := None;
      epoch := 0;
      key := None;
      disposed := false;
    }

    /**
     * A composition pass reading key `k` at time `now`. When the key differs
     * from the current run's, the old run is disposed (its timer cancelled) and
     * a new run shows the bar and schedules a hide `duration` later.
     */
    method Observe(k: nat, now: int, duration: nat)
      requires Valid()
      modifies this
      ensures Valid()
      ensures Model() == Step(old(Model()), Event.Observe(k, now, duration))
      ensures !old(disposed) && old(key) != Some(k) ==>
        show && key == Some(k) && epoch == old(epoch) + 1 && pending == Some(Timer(epoch, now + duration))
      ensures old(disposed) || old(key) == Some(k) ==> unchanged(this)
    {
      if !disposed && key != Some(k) {
        pending := None;
        key := Some(k);
        show := true;
        epoch := epoch + 1;
        pending := Some(Timer(epoch, now + duration));
      }
    }

    /** The timer thread runs the hide scheduled under handle `h` at time `now`. */
    method TimerFired(h: nat, now: int)
      requires Valid()
      modifies this
      ensures Valid()
      ensures Model() == Step(old(Model()), Fire(h, now))
      ensures old(Due(Model(), h, now)) ==> !show && pending.None?
      ensures !old(Due(Model(), h, now)) ==> unchanged(this)
    {
      if pending.Some? && pending.value.handle == h && pending.value.deadline <= now {
        show := false;
        pending := None;
      }
    }

    /** `onDispose` when the component leaves the composition: cancel the timer; no later event has an effect. */
    method Dispose()
      requires Valid()
      modifies this
      ensures Valid()
      ensures Model() == Step(old(Model()), Event.Dispose)
      ensures disposed && pending.None?
    {
      if !disposed {
        pending := None;
        disposed := true;
      }
    }
  }
}
