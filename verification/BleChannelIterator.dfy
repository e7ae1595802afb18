/**
 The message iterator of `NobleBleChannel` (packages/nodejs-ble/src/NobleBleChannel.ts).

 Messages are pushed by the BTP session and taken by calls of `next`.  A call that finds nothing leaves its promise in
 a single waiter field, so a second call made while one is waiting takes the field over.
 */
module BleChannelIterator {
  import opened Options

  datatype Result<M> = Value(message: M) | Done

  /** The promise of the `call`-th `next` settled with `result`. */
  datatype Settlement<M> = Settlement(call: nat, result: Result<M>)

  /** `settled` lists the promises of `next` in the order they settled; `calls` counts the calls made. */
  datatype State<M> = State(
    queue: seq<M>,
    waiter: Option<nat>,
    done: bool,
    connected: bool,
    calls: nat,
    settled: seq<Settlement<M>>)

  datatype Event<M> = Push(message: M) | Next | Close | Disconnect

  function Start<M>(): State<M> { State([], None, false, true, 0, []) }

  function PushMessage<M>(s: State<M>, message: M): State<M> {
    if s.waiter.Some? then
      s.(waiter := None, settled := s.settled + [Settlement(s.waiter.value, Value(message))])
    else if !s.done then s.(queue := s.queue + [message])
    else s
  }

  function CallNext<M>(s: State<M>): State<M> {
    var s1 := s.(calls := s.calls + 1);
    if |s.queue| > 0 then
      s1.(queue := s.queue[1..], settled := s.settled + [Settlement(s.calls, Value(s.queue[0]))])
    else if s.done || !s.connected then s1.(settled := s.settled + [Settlement(s.calls, Done)])
    else s1.(waiter := Some(s.calls))
  }

  function Terminate<M>(s: State<M>): State<M> {
    if s.done then s
    else
      s.(done := true, waiter := None,
         settled := if s.waiter.Some? then s.settled + [Settlement(s.waiter.value, Done)] else s.settled)
  }

  function Step<M>(s: State<M>, e: Event<M>): State<M> {
    match e
    case Push(message) => PushMessage(s, message)
    case Next => CallNext(s)
    case Close => Terminate(s)
    case Disconnect => Terminate(s.(connected := false))
  }

  function Run<M>(events: seq<Event<M>>): State<M> {
    if events == [] then Start() else Step(Run(events[..|events| - 1]), events[|events| - 1])
  }

  // ---- What the iterator is for --------------------------------------------------------------------------------

  predicate Ended<M>(events: seq<Event<M>>) {
    exists i :: 0 <= i < |events| && (events[i].Close? || events[i].Disconnect?)
  }

  /** The messages pushed before the iterator was terminated, in order. */
  function Accepted<M>(events: seq<Event<M>>): seq<M> {
    if events == [] then []
    else
      var before, last := events[..|events| - 1], events[|events| - 1];
      if last.Push? && !Ended(before) then Accepted(before) + [last.message] else Accepted(before)
  }

  function Values<M>(settled: seq<Settlement<M>>): seq<M> {
    if settled == [] then []
    else
      var before, last := settled[..|settled| - 1], settled[|settled| - 1].result;
      if last.Value? then Values(before) + [last.message] else Values(before)
  }

  predicate Inv<M>(s: State<M>) {
    && (s.waiter.Some? ==> s.queue == [] && !s.done && s.waiter.value + 1 == s.calls)
    && (!s.connected ==> s.done)
    && (forall i :: 0 <= i < |s.settled| ==> s.settled[i].call < s.calls && s.waiter != Some(s.settled[i].call))
    && (forall i, j :: 0 <= i < j < |s.settled| ==> s.settled[i].call < s.settled[j].call)
    && (forall i, j :: 0 <= i < j < |s.settled| && s.settled[i].result.Done? ==> s.settled[j].result.Done?)
    && (forall i :: 0 <= i < |s.settled| && s.settled[i].result.Done? ==> s.done && s.queue == [])
  }

  lemma {:induction false} RunKeepsInv<M>(events: seq<Event<M>>)
    ensures Inv(Run(events))
    ensures Run(events).done <==> Ended(events)
    ensures Values(Run(events).settled) + Run(events).queue == Accepted(events)
  {
    if events != [] {
      var before, last := events[..|events| - 1], events[|events| - 1];
      RunKeepsInv(before);
      EndedSnoc(events);
      StepKeepsInv(Run(before), last);
      StepKeepsValues(Run(before), last);
    }
  }

  lemma EndedSnoc<M>(events: seq<Event<M>>)
    requires events != []
    ensures var before, last := events[..|events| - 1], events[|events| - 1];
            Ended(events) <==> Ended(before) || last.Close? || last.Disconnect?
  {
    var before := events[..|events| - 1];
    assert forall i :: 0 <= i < |before| ==> events[i] == before[i];
  }

  lemma PushKeepsInv<M>(s: State<M>, message: M)
    requires Inv(s)
    ensures Inv(PushMessage(s, message))
  {
  }

  lemma NextKeepsInv<M>(s: State<M>)
    requires Inv(s)
    ensures Inv(CallNext(s))
  {
  }

  lemma TerminateKeepsInv<M>(s: State<M>, connected: bool)
    requires Inv(s) && (s.connected || !connected)
    ensures Inv(Terminate(s.(connected := connected)))
  {
  }

  lemma StepKeepsInv<M>(s: State<M>, e: Event<M>)
    requires Inv(s)
    ensures Inv(Step(s, e))
    ensures Step(s, e).done <==> s.done || e.Close? || e.Disconnect?
  {
    match e
    case Push(message) => PushKeepsInv(s, message);
    case Next => NextKeepsInv(s);
    case Close => TerminateKeepsInv(s, s.connected);
    case Disconnect => TerminateKeepsInv(s, false);
  }

  lemma ValuesAppend<M>(settled: seq<Settlement<M>>, one: Settlement<M>)
    ensures Values(settled + [one]) ==
            if one.result.Value? then Values(settled) + [one.result.message] else Values(settled)
  {
    assert (settled + [one])[..|settled|] == settled;
  }

  lemma StepKeepsValues<M>(s: State<M>, e: Event<M>)
    requires Inv(s)
    ensures var s' := Step(s, e);
            Values(s'.settled) + s'.queue ==
            Values(s.settled) + s.queue + (if e.Push? && !s.done then [e.message] else [])
  {
    match e
    case Push(message) => PushKeepsValues(s, message);
    case Next => NextKeepsValues(s);
    case Close => TerminateKeepsValues(s);
    case Disconnect => TerminateKeepsValues(s.(connected := false));
  }

  lemma PushKeepsValues<M>(s: State<M>, message: M)
    requires Inv(s)
    ensures var s' := PushMessage(s, message);
            Values(s'.settled) + s'.queue == Values(s.settled) + s.queue + (if s.done then [] else [message])
  {
    if s.waiter.Some? {
      ValuesAppend(s.settled, Settlement(s.waiter.value, Value(message)));
    }
  }

  lemma NextKeepsValues<M>(s: State<M>)
    ensures Values(CallNext(s).settled) + CallNext(s).queue == Values(s.settled) + s.queue
  {
    if |s.queue| > 0 {
      ValuesAppend(s.settled, Settlement(s.calls, Value(s.queue[0])));
    } else {
      ValuesAppend(s.settled, Settlement(s.calls, Done));
    }
  }

  lemma TerminateKeepsValues<M>(s: State<M>)
    ensures Values(Terminate(s).settled) == Values(s.settled) && Terminate(s).queue == s.queue
  {
    if s.waiter.Some? {
      ValuesAppend(s.settled, Settlement(s.waiter.value, Done));
    }
  }

  // ---- Theorems ------------------------------------------------------------------------------------------------

  /**
   The values taken so far are a prefix of the messages pushed before termination, what is missing is queued, and once
   any call has reported the end nothing is missing.
   */
  lemma YieldsExactlyAccepted<M>(events: seq<Event<M>>)
    ensures Values(Run(events).settled) <= Accepted(events)
    ensures Run(events).waiter.Some? ==> Values(Run(events).settled) == Accepted(events)
    ensures (exists i :: 0 <= i < |Run(events).settled| && Run(events).settled[i].result.Done?) ==>
              Ended(events) && Values(Run(events).settled) == Accepted(events)
  {
    RunKeepsInv(events);
  }

  /** Promises settle in call order, and after one reported the end all later ones do. */
  lemma DoneForever<M>(events: seq<Event<M>>, i: nat, j: nat)
    requires i < j < |Run(events).settled|
    ensures Run(events).settled[i].call < Run(events).settled[j].call
    ensures Run(events).settled[i].result.Done? ==> Run(events).settled[j].result.Done?
  {
    RunKeepsInv(events);
  }

  /** No call of `next` is made while the promise of an earlier one is still waiting. */
  predicate OneAtATime<M>(events: seq<Event<M>>) {
    forall i :: 0 <= i < |events| && events[i].Next? ==> Run(events[..i]).waiter.None?
  }

  predicate Answered<M>(s: State<M>, call: nat) {
    s.waiter == Some(call) || exists i :: 0 <= i < |s.settled| && s.settled[i].call == call
  }

  predicate AllAnswered<M>(s: State<M>) { forall call: nat :: call < s.calls ==> Answered(s, call) }

  /** Every promise `next` returned has settled or is the one waiting, exactly when no two calls ever overlapped. */
  lemma {:induction false} AnsweredIffOneAtATime<M>(events: seq<Event<M>>)
    ensures AllAnswered(Run(events)) <==> OneAtATime(events)
  {
    if events != [] {
      var before, last := events[..|events| - 1], events[|events| - 1];
      AnsweredIffOneAtATime(before);
      RunKeepsInv(before);
      OneAtATimeSnoc(before, last);
      assert events == before + [last];
      StepAnswers(Run(before), last);
    }
  }

  lemma OneAtATimeSnoc<M>(before: seq<Event<M>>, last: Event<M>)
    ensures OneAtATime(before + [last]) <==> OneAtATime(before) && (last.Next? ==> Run(before).waiter.None?)
  {
    var events := before + [last];
    assert events[..|before|] == before;
    forall i | 0 <= i < |before| ensures events[..i] == before[..i] && events[i] == before[i] {
    }
    if OneAtATime(events) {
      forall i | 0 <= i < |before| && before[i].Next? ensures Run(before[..i]).waiter.None? {
        assert events[i].Next?;
      }
      assert last.Next? ==> events[|before|].Next?;
    }
  }

  lemma StepAnswersCall<M>(s: State<M>, e: Event<M>, call: nat)
    requires Inv(s) && call < s.calls
    ensures Answered(Step(s, e), call) <==> Answered(s, call) && !(e.Next? && s.waiter == Some(call))
  {
    var s' := Step(s, e);
    if exists i :: 0 <= i < |s.settled| && s.settled[i].call == call {
      var i :| 0 <= i < |s.settled| && s.settled[i].call == call;
      assert s'.settled[i].call == call;
    }
    if s.waiter == Some(call) && s'.waiter.None? {
      assert s'.settled[|s.settled|].call == call;
    }
  }

  lemma StepAnswers<M>(s: State<M>, e: Event<M>)
    requires Inv(s)
    ensures AllAnswered(Step(s, e)) <==> AllAnswered(s) && (e.Next? ==> s.waiter.None?)
  {
    var s' := Step(s, e);
    forall call: nat | call < s.calls
      ensures Answered(s', call) <==> Answered(s, call) && !(e.Next? && s.waiter == Some(call))
    {
      StepAnswersCall(s, e, call);
    }
    if e.Next? {
      assert Answered(s', s.calls) by {
        if s'.waiter.None? {
          assert s'.settled[|s.settled|].call == s.calls;
        }
      }
      assert s.waiter.Some? ==> !Answered(s', s.waiter.value);
    }
  }

  /** The call was made, has not settled and is not the one waiting. */
  predicate Lost<M>(s: State<M>, call: nat) { call < s.calls && !Answered(s, call) }

  lemma StaysLost<M>(events: seq<Event<M>>, e: Event<M>, call: nat)
    requires Lost(Run(events), call)
    ensures Lost(Run(events + [e]), call)
  {
    assert (events + [e])[..|events|] == events;
    RunKeepsInv(events);
    StepAnswersCall(Run(events), e, call);
  }

  lemma {:induction false} LostForever<M>(events: seq<Event<M>>, more: seq<Event<M>>, call: nat)
    requires Lost(Run(events), call)
    ensures Lost(Run(events + more), call)
    decreases |more|
  {
    if more == [] {
      assert events + more == events;
    } else {
      var before, last := more[..|more| - 1], more[|more| - 1];
      LostForever(events, before, call);
      StaysLost(events + before, last, call);
      assert events + more == events + before + [last];
    }
  }

  /** A call that is waiting when `next` is called again is never answered, whatever happens later. */
  lemma OverlappedIsNeverAnswered<M>(events: seq<Event<M>>, more: seq<Event<M>>)
    requires Run(events).waiter.Some?
    ensures Lost(Run(events + [Next] + more), Run(events).waiter.value)
  {
    var call := Run(events).waiter.value;
    RunKeepsInv(events);
    assert (events + [Next])[..|events|] == events;
    StepAnswersCall(Run(events), Next, call);
    LostForever(events + [Next], more, call);
  }

  /** The shortest such run. */
  lemma SecondCallLosesFirst<M>(more: seq<Event<M>>)
    ensures Lost(Run([Next, Next] + more), 0) && !AllAnswered(Run([Next, Next] + more))
  {
    var first: seq<Event<M>> := [Next];
    assert first[..0] == [];
    assert Run(first).waiter == Some(0);
    OverlappedIsNeverAnswered(first, more);
    assert first + [Next] + more == [Next, Next] + more;
  }

  /** What a call of `next` gives: the next accepted message, or nothing once every accepted message was taken. */
  lemma NextYields<M>(events: seq<Event<M>>)
    ensures var s, s' := Run(events), Run(events + [Next]);
            var taken, accepted := Values(s.settled), Accepted(events + [Next]);
            if s.queue == [] then Values(s'.settled) == accepted
            else |taken| < |accepted| && s'.settled == s.settled + [Settlement(s.calls, Value(accepted[|taken|]))]
  {
    assert (events + [Next])[..|events|] == events;
    RunKeepsInv(events);
    RunKeepsInv(events + [Next]);
    assert Accepted(events + [Next]) == Accepted(events);
  }

  /** The promise that an event settles, if any, in terms of what happened before. */
  function SettledBy<M>(events: seq<Event<M>>, e: Event<M>): seq<Settlement<M>> {
    var s, taken := Run(events), |Values(Run(events).settled)|;
    match e
    case Push(message) => if s.waiter.Some? then [Settlement(s.waiter.value, Value(message))] else []
    case Next =>
      if taken < |Accepted(events)| then [Settlement(s.calls, Value(Accepted(events)[taken]))]
      else if Ended(events) then [Settlement(s.calls, Done)]
      else []
    case Close => if s.waiter.Some? then [Settlement(s.waiter.value, Done)] else []
    case Disconnect => if s.waiter.Some? then [Settlement(s.waiter.value, Done)] else []
  }

  /**
   What each event does to the promises: a call is answered at once with the next accepted message, or with the end if
   there is none and the iterator has ended, and waits otherwise; a waiting call gets the next message or the end.
   */
  lemma EventSettles<M>(events: seq<Event<M>>, e: Event<M>)
    ensures var s, s' := Run(events), Run(events + [e]);
            && s'.settled == s.settled + SettledBy(events, e)
            && s'.calls == s.calls + (if e.Next? then 1 else 0)
            && s'.waiter == if e.Next? && SettledBy(events, e) == [] then Some(s.calls) else None
  {
    assert (events + [e])[..|events|] == events;
    RunKeepsInv(events);
  }

  // ---- The channel ---------------------------------------------------------------------------------------------

  /** The iterator fields of the channel; `history` is the sequence of calls and events so far. */
  class Channel<M> {
    var queue: seq<M>
    var waiter: Option<nat>
    var done: bool
    var connected: bool
    var calls: nat
    var settled: seq<Settlement<M>>
    ghost var history: seq<Event<M>>

    ghost function View(): State<M>
      reads this
    {
      State(queue, waiter, done, connected, calls, settled)
    }

    ghost predicate Valid()
      reads this
    {
      View() == Run(history)
    }

    ghost method Record(e: Event<M>)
      requires View() == Step(Run(history), e)
      modifies this`history
      ensures Valid() && history == old(history) + [e]
    {
      history := history + [e];
      assert history[..|history| - 1] == old(history);
    }

    constructor ()
      ensures Valid() && history == []
    {
      queue, waiter, done, connected, calls, settled := [], None, false, true, 0, [];
      history := [];
    }

    /** A message is accepted unless the iterator has ended; what was accepted is what was taken and what is queued. */
    method Receive(message: M)
      requires Valid()
      modifies this`waiter, this`settled, this`queue, this`history
      ensures Valid() && history == old(history) + [Push(message)]
      ensures waiter.None? && settled == old(settled + SettledBy(history, Push(message)))
      ensures Values(settled) + queue == old(Values(settled) + queue) + (if old(done) then [] else [message])
      ensures Values(settled) + queue == Accepted(history)
    {
      RunKeepsInv(history);
      StepKeepsValues(View(), Push(message));
      EventSettles(history, Push(message));
      if waiter.Some? {
        var call := waiter.value;
        waiter := None;
        settled := settled + [Settlement(call, Value(message))];
      } else if !done {
        queue := queue + [message];
      }
      Record(Push(message));
      RunKeepsInv(history);
    }

    /** The call takes the next accepted message; it reports the end, or waits, only when all were taken. */
    method Take() returns (call: nat)
      requires Valid()
      modifies this`calls, this`queue, this`settled, this`waiter, this`history
      ensures Valid() && history == old(history) + [Next]
      ensures call == old(calls) && calls == call + 1 && Answered(View(), call)
      ensures settled == old(settled + SettledBy(history, Next))
      ensures settled == old(settled) ==> waiter == Some(call) && !done && queue == []
      ensures if old(queue) == [] then Values(settled) == Accepted(history)
              else
                && old(|Values(settled)|) < |Accepted(history)|
                && settled == old(settled) + [Settlement(call, Value(Accepted(history)[old(|Values(settled)|)]))]
    {
      NextYields(history);
      EventSettles(history, Next);
      call := calls;
      calls := calls + 1;
      if |queue| > 0 {
        settled := settled + [Settlement(call, Value(queue[0]))];
        queue := queue[1..];
      } else if done || !connected {
        settled := settled + [Settlement(call, Done)];
      } else {
        waiter := Some(call);
      }
      assert waiter == Some(call) || settled[|settled| - 1].call == call;
      Record(Next);
    }

    method TerminateIterator()
      modifies this`done, this`settled, this`waiter
      ensures View() == Terminate(old(View()))
    {
      if !done {
        done := true;
        if waiter.Some? {
          settled := settled + [Settlement(waiter.value, Done)];
        }
        waiter := None;
      }
    }

    method CloseChannel()
      requires Valid()
      modifies this`done, this`settled, this`waiter, this`history
      ensures Valid() && history == old(history) + [Close]
      ensures Ended(history) && done && waiter.None? && settled == old(settled + SettledBy(history, Close))
    {
      RunKeepsInv(history);
      EventSettles(history, Close);
      TerminateIterator();
      Record(Close);
      assert history[|history| - 1].Close?;
    }

    method OnDisconnect()
      requires Valid()
      modifies this`connected, this`done, this`settled, this`waiter, this`history
      ensures Valid() && history == old(history) + [Disconnect]
      ensures Ended(history) && done && waiter.None? && settled == old(settled + SettledBy(history, Disconnect))
      ensures !connected
    {
      RunKeepsInv(history);
      EventSettles(history, Disconnect);
      connected := false;
      TerminateIterator();
      Record(Disconnect);
      assert history[|history| - 1].Disconnect?;
    }
  }
}
