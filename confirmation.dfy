/**
 * The settlement logic of awaitTransactionSignatureConfirmation
 * (src/BaseProgram.ts): a `done` flag shared by a timeout, a WebSocket
 * signature subscription and a polling loop, and a promise that only the
 * first resolve or reject settles. Timers and async closures are replaced by
 * an explicit sequence of events delivered one at a time.
 */
module Confirmation {
  import opened Wrappers

  /** The error object a ledger reports for a failed transaction (opaque here). */
  datatype TxError = TxError(detail: string)

  /**
   * One entry of getSignatureStatuses: the error (null when none), the
   * confirmation count (null once rooted) and the commitment status string.
   */
  datatype StatusRecord = StatusRecord(err: Option<TxError>, confirmations: Option<nat>, confirmationStatus: Option<string>)

  /** Why the promise was rejected: the `{timeout: true}` object, or the ledger's error. */
  datatype Reason = TimedOut | Failed(err: TxError)

  /** What the promise was resolved with: the WebSocket result or the polled status record. */
  datatype Resolution = FromSubscription | FromPoll(record: StatusRecord)

  /** The state of the promise. */
  datatype Outcome = Pending | Resolved(value: Resolution) | Rejected(reason: Reason)

  /** The things that can happen while awaiting confirmation. */
  datatype Event =
    | Timeout                            // the setTimeout callback fires
    | Notified(err: Option<TxError>)     // the onSignature callback runs
    | Polled(record: Option<StatusRecord>)  // a getSignatureStatuses query answers
    | PollFailed                         // a getSignatureStatuses query throws

  /** The shared flags and the promise, as one value. */
  datatype State = State(done: bool, subscribed: bool, outcome: Outcome)

  /** A polled record counts as confirmed: a nonzero confirmation count, or status "confirmed" or "finalized". */
  predicate IsConfirmed(r: StatusRecord)
  {
    (r.confirmations.Some? && r.confirmations.value != 0)
    || r.confirmationStatus == Some("confirmed")
    || r.confirmationStatus == Some("finalized")
  }

  /** Promise semantics: only the first resolve or reject takes effect. */
  function Settle(o: Outcome, next: Outcome): (r: Outcome)
    ensures o.Pending? ==> r == next
    ensures !o.Pending? ==> r == o
  {
    if o.Pending? then next else o
  }

  /**
   * The state right after setup: the subscription is registered unless
   * onSignature threw, in which case `done` is already set.
   */
  function Init(setupThrows: bool): State
  {
    State(setupThrows, !setupThrows, Pending)
  }

  /** The effect of one event. */
  function Step(s: State, e: Event): (r: State)
    ensures s.done ==> r.done
    ensures !s.outcome.Pending? ==> r.outcome == s.outcome
    ensures r.subscribed == s.subscribed
    ensures !r.outcome.Pending? && s.outcome.Pending? ==> r.done
  {
    match e
    case Timeout =>
      if s.done then s else State(true, s.subscribed, Settle(s.outcome, Rejected(TimedOut)))
    case Notified(err) =>
      if !s.subscribed then s
      else State(true, true, Settle(s.outcome, if err.Some? then Rejected(Failed(err.value)) else Resolved(FromSubscription)))
    case Polled(rec) =>
      if s.done || rec.None? then s
      else if rec.value.err.Some? then State(true, s.subscribed, Settle(s.outcome, Rejected(Failed(rec.value.err.value))))
      else if !IsConfirmed(rec.value) then s
      else State(true, s.subscribed, Settle(s.outcome, Resolved(FromPoll(rec.value))))
    case PollFailed => s
  }

  /** The state after a sequence of events, delivered in order. */
  function Replay(s: State, es: seq<Event>): State
  {
    if es == [] then s else Step(Replay(s, es[..|es| - 1]), es[|es| - 1])
  }

  /** The object invariant: a settled promise always comes with `done`, and so does a missing subscription. */
  predicate Consistent(s: State)
  {
    (!s.outcome.Pending? ==> s.done) && (!s.subscribed ==> s.done)
  }

  /**
   * The mutable state of one awaitTransactionSignatureConfirmation call.
   * Each event handler updates `done` and the promise as the source does.
   */
  class ConfirmationRace {
    var done: bool
    var subscribed: bool
    var outcome: Outcome

    /** The fields as one value. */
    function Current(): State
      reads this
    {
      State(done, subscribed, outcome)
    }

    ghost predicate Valid()
      reads this
    {
      Consistent(Current())
    }

    /** Starts the timer and registers the subscription; `setupThrows` says whether onSignature threw. */
    constructor (setupThrows: bool)
      ensures Valid() && Current() == Init(setupThrows)
      ensures outcome.Pending? && done == setupThrows
    {
      done := false;
      subscribed := false;
      outcome := Pending;
      if setupThrows {
        done := true;
      } else {
        subscribed := true;
      }
    }

    /** resolve(value): ignored once the promise has settled. */
    method Resolve(value: Resolution)
      modifies this`outcome
      ensures outcome == Settle(old(outcome), Resolved(value))
    {
      if outcome.Pending? {
        outcome := Resolved(value);
      }
    }

    /** reject(reason): ignored once the promise has settled. */
    method Reject(reason: Reason)
      modifies this`outcome
      ensures outcome == Settle(old(outcome), Rejected(reason))
    {
      if outcome.Pending? {
        outcome := Rejected(reason);
      }
    }

    /** The timeout: a no-op once done, otherwise sets done and rejects with `{timeout: true}`. */
    method OnTimeout()
      requires Valid()
      modifies this
      ensures Valid() && Current() == Step(old(Current()), Timeout)
      ensures old(done) ==> Current() == old(Current())
      ensures !old(done) ==> done && outcome == Rejected(TimedOut)
    {
      if done {
        return;
      }
      done := true;
      Reject(TimedOut);
    }

    /**
     * The WebSocket callback: sets done without looking at it, then rejects
     * with the reported error or resolves when there is none.
     */
    method OnNotification(err: Option<TxError>)
      requires Valid()
      modifies this
      ensures Valid() && Current() == Step(old(Current()), Notified(err))
      ensures subscribed ==> done
      ensures subscribed && old(outcome).Pending? && err.Some? ==> outcome == Rejected(Failed(err.value))
      ensures subscribed && old(outcome).Pending? && err.None? ==> outcome == Resolved(FromSubscription)
      ensures !old(outcome).Pending? ==> outcome == old(outcome)
    {
      if !subscribed {
        // no callback was ever registered
        return;
      }
      done := true;
      if err.Some? {
        Reject(Failed(err.value));
      } else {
        Resolve(FromSubscription);
      }
    }

    /**
     * A poll answer: ignored once done or when there is no record; a record
     * with an error rejects; an unconfirmed one keeps waiting; a confirmed one resolves.
     */
    method OnPollResult(rec: Option<StatusRecord>)
      requires Valid()
      modifies this
      ensures Valid() && Current() == Step(old(Current()), Polled(rec))
      ensures old(done) || rec.None? ==> Current() == old(Current())
      ensures !old(done) && rec.Some? && rec.value.err.Some? ==>
        done && outcome == Rejected(Failed(rec.value.err.value))
      ensures !old(done) && rec.Some? && rec.value.err.None? && !IsConfirmed(rec.value) ==>
        Current() == old(Current())
      ensures !old(done) && rec.Some? && rec.value.err.None? && IsConfirmed(rec.value) ==>
        done && outcome == Resolved(FromPoll(rec.value))
    {
      if !done {
        if rec.None? {
          // no record yet: keep polling
        } else if rec.value.err.Some? {
          done := true;
          Reject(Failed(rec.value.err.value));
        } else if !IsConfirmed(rec.value) {
          // a record that is not yet confirmed: keep polling
        } else {
          done := true;
          Resolve(FromPoll(rec.value));
        }
      }
    }

    /** A poll query that throws: only logged, nothing changes. */
    method OnPollError()
      requires Valid()
      ensures Current() == old(Current())
      ensures Current() == Step(Current(), PollFailed)
    {
    }

    /** Delivers a sequence of events in order. */
    method Run(events: seq<Event>)
      requires Valid()
      modifies this
      ensures Valid() && Current() == Replay(old(Current()), events)
    {
      for i := 0 to |events|
        invariant Valid() && Current() == Replay(old(Current()), events[..i])
      {
        assert events[..i + 1][..i] == events[..i];
        match events[i] {
          case Timeout => OnTimeout();
          case Notified(err) => OnNotification(err);
          case Polled(rec) => OnPollResult(rec);
          case PollFailed => OnPollError();
        }
      }
      assert events[..|events|] == events;
    }
  }

  /**
   * awaitTransactionSignatureConfirmation, with the events that reach it given
   * up front: the promise's final state. A pending result means the call never returns.
   */
  method AwaitConfirmation(setupThrows: bool, events: seq<Event>) returns (outcome: Outcome)
    ensures outcome == Replay(Init(setupThrows), events).outcome
    ensures setupThrows ==> outcome.Pending?
    ensures !setupThrows && Timeout in events ==> !outcome.Pending?
  {
    var race := new ConfirmationRace(setupThrows);
    race.Run(events);
    outcome := race.outcome;
    if setupThrows {
      SetupFailureNeverSettles(events);
    } else if Timeout in events {
      LiveSettlesOnTimeout(Init(false), events);
    }
  }

  /** Every event keeps the object invariant. */
  lemma {:induction false} ReplayConsistent(s: State, es: seq<Event>)
    requires Consistent(s)
    ensures Consistent(Replay(s, es))
  {
    if es != [] {
      ReplayConsistent(s, es[..|es| - 1]);
    }
  }

  /** Once done, it stays done. */
  lemma {:induction false} ReplayKeepsDone(s: State, es: seq<Event>)
    requires s.done
    ensures Replay(s, es).done
  {
    if es != [] {
      ReplayKeepsDone(s, es[..|es| - 1]);
    }
  }

  /** First settlement wins: no later event changes a settled promise. */
  lemma {:induction false} ReplayKeepsSettled(s: State, es: seq<Event>)
    requires !s.outcome.Pending?
    ensures Replay(s, es).outcome == s.outcome
  {
    if es != [] {
      ReplayKeepsSettled(s, es[..|es| - 1]);
    }
  }

  /** Replaying two sequences one after the other is replaying their concatenation. */
  lemma {:induction false} ReplayAppend(s: State, a: seq<Event>, b: seq<Event>)
    ensures Replay(s, a + b) == Replay(Replay(s, a), b)
    decreases |b|
  {
    if b == [] {
      assert a + b == a;
    } else {
      assert (a + b)[..|a + b| - 1] == a + b[..|b| - 1];
      ReplayAppend(s, a, b[..|b| - 1]);
    }
  }

  /** Exactly one settlement: whatever follows the first settling events leaves the outcome alone. */
  lemma SettlesOnce(s: State, a: seq<Event>, b: seq<Event>)
    requires !Replay(s, a).outcome.Pending?
    ensures Replay(s, a + b).outcome == Replay(s, a).outcome
  {
    ReplayAppend(s, a, b);
    ReplayKeepsSettled(Replay(s, a), b);
  }

  /** A state where `done` is only ever set together with a settlement. */
  predicate Live(s: State)
  {
    s.done ==> !s.outcome.Pending?
  }

  /** From a live state, any sequence of events that contains the timeout settles the promise. */
  lemma {:induction false} LiveSettlesOnTimeout(s: State, es: seq<Event>)
    requires Live(s) && Timeout in es
    ensures !Replay(s, es).outcome.Pending?
  {
    var n := |es| - 1;
    if es[n] == Timeout {
      LiveStaysLive(s, es[..n]);
    } else {
      assert Timeout in es[..n] by {
        var i :| 0 <= i < |es| && es[i] == Timeout;
        assert es[..n][i] == Timeout;
      }
      LiveSettlesOnTimeout(s, es[..n]);
      ReplayKeepsSettled(Replay(s, es[..n]), [es[n]]);
    }
  }

  /** Liveness is preserved by every event. */
  lemma {:induction false} LiveStaysLive(s: State, es: seq<Event>)
    requires Live(s)
    ensures Live(Replay(s, es))
  {
    if es != [] {
      LiveStaysLive(s, es[..|es| - 1]);
    }
  }

  /**
   * As written, a failed subscription setup sets `done` before polling starts:
   * no poll ever runs, the timeout returns early, and the promise never settles.
   */
  lemma {:induction false} SetupFailureNeverSettles(es: seq<Event>)
    ensures Replay(Init(true), es) == Init(true)
  {
    if es != [] {
      SetupFailureNeverSettles(es[..|es| - 1]);
    }
  }

  /** The evidently intended setup: a failed subscription leaves `done` unset, so polling and the timeout still work. */
  function InitIntended(setupThrows: bool): (s: State)
    ensures Live(s) && s.outcome.Pending?
  {
    State(false, !setupThrows, Pending)
  }

  /** With the intended setup, the call always settles once the timeout fires, whether or not the subscription was set up. */
  lemma IntendedSettlesOnTimeout(setupThrows: bool, es: seq<Event>)
    requires Timeout in es
    ensures !Replay(InitIntended(setupThrows), es).outcome.Pending?
  {
    LiveSettlesOnTimeout(InitIntended(setupThrows), es);
  }

  /** With the intended setup and a failed subscription, the poll path alone settles the call. */
  lemma IntendedPollAloneConfirms(r: StatusRecord)
    requires r.err.None? && IsConfirmed(r)
    ensures Replay(InitIntended(true), [Polled(Some(r))]).outcome == Resolved(FromPoll(r))
  {
    assert [Polled(Some(r))][..0] == [];
  }
}
