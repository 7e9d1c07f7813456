/**
 * The message state holder of the banner: two nullable slots, `success` and
 * `error`, overwritten in place by `addSuccess` and `addError`, plus the change
 * key `updated` that the visibility effect is keyed on.
 *
 * The key is an assumption of this model: the class that declares the two slots
 * has no `updated` member, yet the component reads one. It is modelled as a
 * counter that every `add*` call bumps, so that two identical messages in a row
 * still count as two changes.
 */
module MessageState {
  import opened Wrappers

  /** A Kotlin `Exception`, reduced to the nullable `message` the banner reads. */
  datatype Exception = Exception(message: Option<string>)

  /** The values held by a `MessageBarState` at one moment. */
  datatype Slots = Slots(success: Option<string>, error: Option<Exception>, updated: nat)

  /** One call on the state holder. */
  datatype Call = AddSuccess(message: string) | AddError(exception: Exception)

  /** What the banner can show, as one tagged value: the view a caller has of the two slots. */
  datatype Message = Empty | Success(text: string) | Error(exception: Exception)

  /** Success and error are never set together. */
  predicate Exclusive(s: Slots) {
    !(s.success.Some? && s.error.Some?)
  }

  /** The content of the state, without its change key. */
  function Content(s: Slots): (Option<string>, Option<Exception>) {
    (s.success, s.error)
  }

  /** A fresh holder: nothing set, key at its start value. */
  function Initial(): (s: Slots)
    ensures Exclusive(s) && s.success.None? && s.error.None?
  {
    Slots(None, None, 0)
  }

  /** The message a call installs. */
  function MessageOf(c: Call): Message {
    match c
    case AddSuccess(m) => Success(m)
    case AddError(e) => Error(e)
  }

  /** The single message an exclusive state holds. */
  function Current(s: Slots): (m: Message)
    requires Exclusive(s)
    ensures m.Empty? <==> s.success.None? && s.error.None?
  {
    if s.success.Some? then Success(s.success.value)
    else if s.error.Some? then Error(s.error.value)
    else Empty
  }

  /** One `add*` call: fill one slot, clear the other, change the key. */
  function Apply(s: Slots, c: Call): (r: Slots)
    ensures Exclusive(r)
    ensures r.updated != s.updated
  {
    match c
    case AddSuccess(m) => Slots(Some(m), None, s.updated + 1)
    case AddError(e) => Slots(None, Some(e), s.updated + 1)
  }

  /** The state after a sequence of calls on a fresh holder, oldest call first. */
  function Replay(calls: seq<Call>): Slots {
    if calls == [] then Initial()
    else Apply(Replay(calls[..|calls| - 1]), calls[|calls| - 1])
  }

  /** After a call, the state holds exactly that call's payload, whatever it held before. */
  lemma ApplyInstallsCall(s: Slots, c: Call)
    ensures Current(Apply(s, c)) == MessageOf(c)
    ensures Content(Apply(s, c)) == match c
      case AddSuccess(m) => (Some(m), None)
      case AddError(e) => (None, Some(e))
  {
  }

  /** Mutual exclusion holds after any sequence of calls from a fresh holder. */
  lemma {:induction false} ReplayExclusive(calls: seq<Call>)
    ensures Exclusive(Replay(calls))
  {
  }

  /** The key counts the calls made so far. */
  lemma {:induction false} ReplayKey(calls: seq<Call>)
    ensures Replay(calls).updated == |calls|
  {
    if calls != [] {
      ReplayKey(calls[..|calls| - 1]);
    }
  }

  /** Any two different moments of a call sequence carry different keys, so every call is seen as a change. */
  lemma KeysDistinct(calls: seq<Call>, i: nat, j: nat)
    requires i < j <= |calls|
    ensures Replay(calls[..i]).updated != Replay(calls[..j]).updated
  {
    ReplayKey(calls[..i]);
    ReplayKey(calls[..j]);
  }

  /** The last call wins: the content after a non-empty sequence depends only on its final call. */
  lemma {:induction false} LastCallWins(a: seq<Call>, b: seq<Call>, c: Call)
    ensures Content(Replay(a + [c])) == Content(Replay(b + [c]))
    ensures Current(Replay(a + [c])) == MessageOf(c)
  {
    assert (a + [c])[..|a + [c]| - 1] == a;
    assert (b + [c])[..|b + [c]| - 1] == b;
    ApplyInstallsCall(Replay(a), c);
    ApplyInstallsCall(Replay(b), c);
  }

  /** Repeating a call leaves the same content, yet still changes the key. */
  lemma RepeatedCall(s: Slots, c: Call)
    ensures Content(Apply(Apply(s, c), c)) == Content(Apply(s, c))
    ensures Apply(Apply(s, c), c).updated != Apply(s, c).updated
  {
  }

  /** The state holder of the banner; one instance per hosting screen. */
  class MessageBarState {
    var success: Option<string>
    var error: Option<Exception>
    var updated: nat

    function Snapshot(): Slots
      reads this
    {
      Slots(success, error, updated)
    }

    ghost predicate Valid()
      reads this
    {
      Exclusive(Snapshot())
    }

    /** Both slots start out null. */
    constructor ()
      ensures Valid()
      ensures Snapshot() == Initial()
    {
      success := None;
      error := None;
      updated := 0;
    }

    /** `addSuccess`: clear the error, then set the success text. */
    method AddSuccess(message: string)
      requires Valid()
      modifies this
      ensures Valid()
      ensures Snapshot() == Apply(old(Snapshot()), Call.AddSuccess(message))
      ensures success == Some(message) && error == None && updated == old(updated) + 1
    {
      error := None;
      success := Some(message);
      updated := updated + 1;
    }

    /** `addError`: clear the success text, then set the error. */
    method AddError(exception: Exception)
      requires Valid()
      modifies this
      ensures Valid()
      ensures Snapshot() == Apply(old(Snapshot()), Call.AddError(exception))
      ensures success == None && error == Some(exception) && updated == old(updated) + 1
    {
      success := None;
      error := Some(exception);
      updated := updated + 1;
    }
  }
}
