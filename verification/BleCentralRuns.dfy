/**
 What holds of every run of the BLE central: statements about all interleavings of attempts, radio events, timers,
 aborts and calls, from the freshly constructed interface on.
 */
module BleCentralRuns {
  import opened Options
  import opened BleCentral
  import opened BleCentralSafety

  lemma {:induction false} RunKeepsInv(s: State, events: seq<Event>)
    requires Inv(s) && IsRun(s, events)
    ensures Inv(Run(s, events))
    decreases |events|
  {
    if events != [] {
      StepKeepsInv(s, events[0]);
      RunKeepsInv(Next(s, events[0]), events[1..]);
    }
  }

  // ---- Frames --------------------------------------------------------------------------------------------------

  /**
   Attempts other than `a` are as before, no attempt disappears, a settled promise keeps its outcome, and a closed
   interface accepts no attempt.
   */
  predicate Leaves(s: State, s': State, a: nat) {
    && s.Has(a) && |s.attempts| <= |s'.attempts| <= |s.attempts| + 1
    && (forall i :: 0 <= i < |s.attempts| && i != a ==> s'.attempts[i] == s.attempts[i])
    && Persists(s, s', a) && s'.attempts[a].forwarded == s.attempts[a].forwarded
    && s'.closed == s.closed
    && (s.closed ==> NoneAccepted(s, s'))
  }

  predicate Persists(s: State, s': State, i: nat) {
    && s.Has(i) && s'.Has(i)
    && s'.attempts[i].started == s.attempts[i].started && s'.attempts[i].caller == s.attempts[i].caller
    && (s.attempts[i].Settled() ==> s'.attempts[i].outcome == s.attempts[i].outcome)
  }

  predicate NoneAccepted(s: State, s': State) {
    && s'.inProgress <= s.inProgress
    && (forall j :: |s.attempts| <= j < |s'.attempts| ==> !s'.attempts[j].started)
  }

  /** Two such effects in a row, of which at most one starts an attempt. */
  lemma LeavesTwice(s: State, s1: State, s2: State, a: nat)
    requires Leaves(s, s1, a) && Leaves(s1, s2, a)
    requires |s1.attempts| == |s.attempts| || |s2.attempts| == |s1.attempts|
    ensures Leaves(s, s2, a)
  {
  }

  lemma PutLeaves(s: State, a: nat, attempt: Attempt)
    requires s.Has(a) && attempt.started == s.attempts[a].started && attempt.caller == s.attempts[a].caller
    requires attempt.forwarded == s.attempts[a].forwarded && attempt.outcome == s.attempts[a].outcome
    ensures Leaves(s, Put(s, a, attempt), a)
  {
  }

  lemma AbandonLeaves(s: State, a: nat)
    requires s.Has(a)
    ensures Leaves(s, Abandon(s, a), a) && |Abandon(s, a).attempts| == |s.attempts|
  {
  }

  lemma SettleLeaves(s: State, a: nat, outcome: Outcome)
    requires s.Has(a)
    ensures Leaves(s, Settle(s, a, outcome), a)
  {
  }

  lemma ReopenLeaves(s: State, a: nat, peripheral: Peripheral)
    requires s.Has(a)
    ensures Leaves(s, Reopen(s, a, peripheral), a)
  {
    var at := s.attempts[a];
    OpenGrows(s, at.address, true, at.signal, at.tryCount + 1, Some(a), peripheral);
  }

  lemma RetryLeaves(s: State, a: nat, peripheral: Peripheral)
    requires s.Has(a)
    ensures Leaves(s, Retry(s, a, peripheral), a)
  {
    var s1 := Abandon(s, a);
    var s2 := StopListening(s1, a, true);
    AbandonLeaves(s, a);
    PutLeaves(s1, a, s2.attempts[a]);
    LeavesTwice(s, s1, s2, a);
    ReopenLeaves(s2, a, peripheral);
    LeavesTwice(s, s2, Retry(s, a, peripheral), a);
  }

  lemma RetryAndReturnLeaves(s: State, a: nat, peripheral: Peripheral)
    requires s.Has(a)
    ensures Leaves(s, RetryAndReturn(s, a, peripheral), a)
  {
    var s1 := Enter(s, a, Finished);
    var s2 := Retry(s1, a, peripheral);
    PutLeaves(s, a, s1.attempts[a]);
    RetryLeaves(s1, a, peripheral);
    LeavesTwice(s, s1, s2, a);
    AbandonLeaves(s2, a);
    LeavesTwice(s, s2, Abandon(s2, a), a);
  }

  lemma GiveUpLeaves(s: State, a: nat, toConnect: bool, error: Error)
    requires s.Has(a)
    ensures Leaves(s, GiveUp(s, a, toConnect, error), a)
  {
    var s1 := StopListening(s, a, toConnect);
    var s2 := Abandon(s1, a);
    PutLeaves(s, a, s1.attempts[a]);
    AbandonLeaves(s1, a);
    LeavesTwice(s, s1, s2, a);
    SettleLeaves(s2, a, Rejected(error));
    LeavesTwice(s, s2, GiveUp(s, a, toConnect, error), a);
  }

  lemma ConnectHandledLeaves(s: State, a: nat)
    requires s.Has(a)
    ensures Leaves(s, ConnectHandled(s, a), a)
  {
    var s1 := Put(s, a, s.attempts[a].(onConnect := false, connectTimer := false, connecting := false));
    PutLeaves(s, a, s1.attempts[a]);
    BeginInterviewLeaves(s1, a);
    LeavesTwice(s, s1, ConnectHandled(s, a), a);
  }

  lemma BeginInterviewLeaves(s: State, a: nat)
    requires s.Has(a)
    ensures Leaves(s, BeginInterview(s, a), a)
  {
    var s1 := Enter(s, a, Finished);
    PutLeaves(s, a, s1.attempts[a]);
    GiveUpLeaves(s1, a, false, ListenerCleared);
    LeavesTwice(s, s1, GiveUp(s1, a, false, ListenerCleared), a);
  }

  lemma ConnectErrorHandledLeaves(s: State, a: nat, peripheral: Peripheral)
    requires s.Has(a)
    ensures Leaves(s, ConnectErrorHandled(s, a, peripheral), a)
  {
    RetryLeaves(Put(s, a, s.attempts[a].(onConnect := false, connectTimer := false, phase := Finished)), a,
                peripheral);
  }

  lemma ConnectRejectedLeaves(s: State, a: nat, peripheral: Peripheral)
    requires s.Has(a)
    ensures Leaves(s, ConnectRejected(s, a, peripheral), a)
  {
    RetryLeaves(Put(s, a, s.attempts[a].(connecting := false)), a, peripheral);
  }

  lemma InterviewedLeaves(s: State, a: nat, result: InterviewResult)
    requires s.Has(a)
    ensures Leaves(s, Interviewed(s, a, result), a)
  {
    DiscardedLeaves(s, a);
    match result
    case MoreToRead =>
    case Failed(peripheral) => RetryAndReturnLeaves(s, a, peripheral);
    case NoMatch => GiveUpLeaves(Enter(s, a, Finished), a, false, MissingCharacteristics);
    case Match =>
  }

  lemma FailLinkLeaves(s: State, a: nat, linked: bool, peripheral: Peripheral)
    requires s.Has(a)
    ensures Leaves(s, FailLink(s, a, linked, peripheral), a)
  {
    RetryAndReturnLeaves(DropChannel(s, a), a, peripheral);
  }

  lemma HandOverLeaves(s: State, a: nat)
    requires s.Has(a)
    ensures Leaves(s, HandOver(s, a), a)
  {
  }

  lemma CreatedLeaves(s: State, a: nat)
    requires s.Has(a)
    ensures Leaves(s, Created(s, a), a)
  {
    AbandonLeaves(s, a);
    HandOverLeaves(Abandon(s, a), a);
  }

  lemma DiscardedLeaves(s: State, a: nat)
    requires s.Has(a)
    ensures Leaves(s, Abandon(Enter(s, a, Finished), a), a)
  {
    AbandonLeaves(Enter(s, a, Finished), a);
  }

  /** The events up to the interview, and those from then on. */
  predicate Early(e: Event) {
    || GivesUp(e) || e.ConnectSucceeds? || e.ConnectFails? || e.ConnectRejects? || e.Disconnects?
    || e.InterviewResumes?
  }

  lemma EarlyLeaves(s: State, e: Event)
    requires Enabled(s, e) && Early(e)
    ensures Leaves(s, Next(s, e), e.a)
  {
    match e
    case AbortFires(a) => GiveUpLeaves(s, a, true, Aborted);
    case ConnectTimeout(a) => GiveUpLeaves(s, a, true, ConnectTimedOut);
    case DisconnectTimeout(a) => GiveUpLeaves(s, a, false, DisconnectTimedOut);
    case InterviewTimeout(a) => GiveUpLeaves(s, a, false, InterviewTimedOut);
    case ConnectSucceeds(a) => ConnectHandledLeaves(s, a);
    case ConnectFails(a, peripheral) => ConnectErrorHandledLeaves(s, a, peripheral);
    case ConnectRejects(a, peripheral) => ConnectRejectedLeaves(s, a, peripheral);
    case Disconnects(a, peripheral) => RetryLeaves(s, a, peripheral);
    case InterviewResumes(a, result) => InterviewedLeaves(s, a, result);
  }

  lemma LateLeaves(s: State, e: Event)
    requires Enabled(s, e) && Actor(e).Some? && !e.Forward? && !Early(e)
    ensures Leaves(s, Next(s, e), e.a)
  {
    match e
    case CreateReturns(a) => CreatedLeaves(s, a);
    case CreateThrows(a, linked, peripheral) => FailLinkLeaves(s, a, linked, peripheral);
    case DiscardReturns(a) => DiscardedLeaves(s, a);
    case DiscardThrows(a, linked, peripheral) => FailLinkLeaves(s, a, linked, peripheral);
    case UnlinkReturns(a, peripheral) => RetryAndReturnLeaves(s, a, peripheral);
    case LinkDrops(a) =>
  }

  /** The code of an attempt changes no other attempt, except that a settled retry settles the attempt it retries. */
  lemma ActorLeaves(s: State, e: Event)
    requires Enabled(s, e) && Actor(e).Some? && !e.Forward?
    ensures Leaves(s, Next(s, e), e.a)
  {
    if Early(e) {
      EarlyLeaves(s, e);
    } else {
      LateLeaves(s, e);
    }
  }

  /** What an event may do to an attempt `i` whose code it does not run. */
  lemma OthersUnchanged(s: State, e: Event, i: nat)
    requires Inv(s) && Enabled(s, e) && s.Has(i) && Actor(e) != Some(i)
    ensures |s.attempts| <= |Next(s, e).attempts|
    ensures Next(s, e).attempts[i] == s.attempts[i] ||
            (e.Forward? && s.attempts[e.a].parent == Some(i) && s.attempts[i].outcome.Pending? &&
             Next(s, e).attempts[i] == s.attempts[i].(outcome := s.attempts[e.a].outcome))
  {
    if Actor(e).Some? && !e.Forward? {
      ActorLeaves(s, e);
    } else if e.Forward? {
      assert Linked(s, e.a);
      ForwardedForwards(s, e.a);
    }
  }

  lemma StepPersists(s: State, e: Event, i: nat)
    requires Inv(s) && Enabled(s, e) && s.Has(i)
    ensures Persists(s, Next(s, e), i)
  {
    if Actor(e) != Some(i) {
      OthersUnchanged(s, e, i);
    } else if e.Forward? {
      assert Linked(s, e.a);
      ForwardedForwards(s, e.a);
    } else {
      ActorLeaves(s, e);
    }
  }

  /** No promise settles twice: once an attempt has resolved or rejected, every continuation keeps that outcome. */
  lemma {:induction false} SettlesOnce(s: State, events: seq<Event>, i: nat)
    requires Inv(s) && IsRun(s, events) && s.Has(i)
    ensures Persists(s, Run(s, events), i)
    decreases |events|
  {
    if events != [] {
      StepPersists(s, events[0], i);
      StepKeepsInv(s, events[0]);
      SettlesOnce(Next(s, events[0]), events[1..], i);
    }
  }

  // ---- Reservations --------------------------------------------------------------------------------------------

  predicate Owns(s: State, i: nat, x: Address) { s.Has(i) && s.attempts[i].ownsSlot && s.attempts[i].address == x }

  /** An address is reserved exactly when one attempt still owns it, and never by two. */
  lemma ReservedIffOwned(events: seq<Event>, x: Address)
    requires IsRun(INITIAL, events)
    ensures var s := Run(INITIAL, events);
            && (x in s.inProgress <==> exists i :: Owns(s, i, x))
            && (forall i, j :: Owns(s, i, x) && Owns(s, j, x) ==> i == j)
  {
    RunKeepsInv(INITIAL, events);
    var s := Run(INITIAL, events);
    if x in s.inProgress {
      assert Owned(s, x);
      var i :| 0 <= i < |s.attempts| && s.attempts[i].ownsSlot && s.attempts[i].address == x;
      assert Owns(s, i, x);
    }
  }

  predicate NoneBy(events: seq<Event>, b: nat) { forall k :: 0 <= k < |events| ==> Actor(events[k]) != Some(b) }

  /** However late other attempts resume, a reservation stays until the attempt that made it gives it up itself. */
  lemma {:induction false} OnlyOwnerReleases(before: seq<Event>, after: seq<Event>, b: nat, x: Address)
    requires IsRun(INITIAL, before) && IsRun(Run(INITIAL, before), after) && NoneBy(after, b)
    requires Owns(Run(INITIAL, before), b, x)
    ensures Owns(Run(Run(INITIAL, before), after), b, x) && x in Run(Run(INITIAL, before), after).inProgress
  {
    RunKeepsInv(INITIAL, before);
    OwnerKeeps(Run(INITIAL, before), after, b, x);
    RunKeepsInv(Run(INITIAL, before), after);
  }

  lemma {:induction false} OwnerKeeps(s: State, events: seq<Event>, b: nat, x: Address)
    requires Inv(s) && IsRun(s, events) && NoneBy(events, b) && Owns(s, b, x)
    ensures Owns(Run(s, events), b, x)
    decreases |events|
  {
    if events != [] {
      assert Actor(events[0]) != Some(b);
      OthersUnchanged(s, events[0], b);
      StepKeepsInv(s, events[0]);
      OwnerKeeps(Next(s, events[0]), events[1..], b, x);
    }
  }

  /** One more attempt, which gets past the entry checks exactly when nothing the caller can see is in its way. */
  ghost predicate AcceptsIff(s: State, s': State, address: Address, isBle: bool, signal: Option<Signal>,
                       peripheral: Peripheral)
  {
    && |s'.attempts| == |s.attempts| + 1
    && (s'.attempts[|s.attempts|].started <==>
          && !s.closed && s.listening && isBle && peripheral.Found? && !s.IsAborted(signal)
          && address !in s.openChannels && forall i: nat :: !Owns(s, i, address))
  }

  /**
   A call of `openChannel` gets past the entry checks exactly when the interface is open and in use, the address is a
   known BLE address that is not connected, the caller has not aborted, and no attempt owns the address.
   */
  lemma AcceptedIff(events: seq<Event>, e: Event)
    requires IsRun(INITIAL, events) && e.OpenChannel?
    ensures AcceptsIff(Run(INITIAL, events), Next(Run(INITIAL, events), e), e.address, e.isBle, e.signal, e.peripheral)
  {
    var s := Run(INITIAL, events);
    ReservedIffOwned(events, e.address);
    var refusal := Refusal(s, e.address, e.isBle, e.signal, 1, e.peripheral);
    var s' := Next(s, e);
    assert s'.attempts[|s.attempts|].started <==> refusal.None?;
  }

  predicate GivesUp(e: Event) { e.AbortFires? || e.ConnectTimeout? || e.DisconnectTimeout? || e.InterviewTimeout? }

  function Cause(e: Event): Error
    requires GivesUp(e)
  {
    match e
    case AbortFires(_) => Aborted
    case ConnectTimeout(_) => ConnectTimedOut
    case DisconnectTimeout(_) => DisconnectTimedOut
    case InterviewTimeout(_) => InterviewTimedOut
  }

  /** Rejected with this error, not retried, and holding nothing any more. */
  predicate Rejects(s: State, a: nat, error: Error) {
    && s.Has(a) && s.attempts[a].outcome == Rejected(error) && s.attempts[a].child.None?
    && !s.attempts[a].ownsSlot && a !in s.guards
    && !s.attempts[a].Timed() && !s.attempts[a].onAbort && !s.attempts[a].onDisconnect
  }

  lemma AbandonFrees(s: State, a: nat)
    requires s.Has(a)
    ensures var s' := Abandon(s, a);
            && s'.Has(a) && a !in s'.guards
            && var o, n := s.attempts[a], s'.attempts[a];
            && !n.ownsSlot && !n.Timed() && !n.onAbort
            && n.outcome == o.outcome && n.child == o.child && n.onDisconnect == o.onDisconnect
  {
  }

  lemma GiveUpRejects(s: State, a: nat, toConnect: bool, error: Error)
    requires s.Has(a) && s.attempts[a].outcome.Pending? && s.attempts[a].child.None?
    ensures Rejects(GiveUp(s, a, toConnect, error), a, error)
  {
    AbandonFrees(StopListening(s, a, toConnect), a);
  }

  lemma GivingUpStep(s: State, e: Event)
    requires Enabled(s, e) && GivesUp(e) && s.attempts[e.a].outcome.Pending? && s.attempts[e.a].child.None?
    ensures Rejects(Next(s, e), e.a, Cause(e))
  {
    GiveUpRejects(s, e.a, e.AbortFires? || e.ConnectTimeout?, Cause(e));
  }

  lemma ArmedIsPending(s: State, a: nat)
    requires Inv(s) && s.Has(a) && (s.attempts[a].Timed() || s.attempts[a].onAbort)
    ensures s.attempts[a].outcome.Pending? && s.attempts[a].child.None?
  {
    assert Local(s, a);
  }

  /** A timeout or an abort that fires always rejects its attempt, with its own error, and frees all it held. */
  lemma GivingUpRejects(events: seq<Event>, e: Event)
    requires IsRun(INITIAL, events) && Enabled(Run(INITIAL, events), e) && GivesUp(e)
    ensures Rejects(Next(Run(INITIAL, events), e), e.a, Cause(e))
  {
    RunKeepsInv(INITIAL, events);
    ArmedIsPending(Run(INITIAL, events), e.a);
    GivingUpStep(Run(INITIAL, events), e);
  }

  /** A settled attempt, and one handed over to a retry, hold neither their slot nor their guard. */
  lemma LetGo(events: seq<Event>, i: nat)
    requires IsRun(INITIAL, events) && Run(INITIAL, events).Has(i)
    ensures var s := Run(INITIAL, events);
            s.attempts[i].Settled() || s.attempts[i].child.Some? ==> !s.attempts[i].ownsSlot && i !in s.guards
  {
    RunKeepsInv(INITIAL, events);
    assert Local(Run(INITIAL, events), i);
  }

  /** Once the interface is closed no attempt is accepted and no address is reserved any more. */
  lemma {:induction false} ClosedAcceptsNone(s: State, events: seq<Event>)
    requires Inv(s) && s.closed && IsRun(s, events)
    ensures Run(s, events).closed && |s.attempts| <= |Run(s, events).attempts| && NoneAccepted(s, Run(s, events))
    decreases |events|
  {
    if events != [] {
      var s1 := Next(s, events[0]);
      StepAcceptsNone(s, events[0]);
      StepKeepsInv(s, events[0]);
      ClosedAcceptsNone(s1, events[1..]);
      var s' := Run(s, events);
      forall j | |s.attempts| <= j < |s'.attempts| ensures !s'.attempts[j].started {
        if j < |s1.attempts| {
          SettlesOnce(s1, events[1..], j);
        }
      }
    }
  }

  lemma StepAcceptsNone(s: State, e: Event)
    requires Inv(s) && s.closed && Enabled(s, e)
    ensures Next(s, e).closed && |s.attempts| <= |Next(s, e).attempts| && NoneAccepted(s, Next(s, e))
  {
    if Actor(e).Some? && !e.Forward? {
      ActorLeaves(s, e);
    }
  }

  // ---- Tries ---------------------------------------------------------------------------------------------------

  /** The attempts one call of `openChannel` started that did not find the peripheral already disconnecting. */
  function Tries(s: State, caller: nat): set<nat> {
    set i | 0 <= i < |s.attempts| && s.attempts[i].caller == caller && s.attempts[i].started &&
            !s.attempts[i].foundDisconnecting
  }

  /** Every attempt is retried at most once. */
  lemma RetriedOnce(events: seq<Event>, i: nat, j: nat)
    requires IsRun(INITIAL, events)
    requires var s := Run(INITIAL, events);
             s.Has(i) && s.Has(j) && s.attempts[i].parent.Some? && s.attempts[i].parent == s.attempts[j].parent
    ensures i == j
  {
    var s := Run(INITIAL, events);
    RunKeepsInv(INITIAL, events);
    assert Linked(s, i) && Linked(s, j);
  }

  /** However its failures are ordered, one call of `openChannel` makes at most three tries. */
  lemma AtMostThreeTries(events: seq<Event>, caller: nat)
    requires IsRun(INITIAL, events)
    ensures |Tries(Run(INITIAL, events), caller)| <= 3
  {
    var s := Run(INITIAL, events);
    RunKeepsInv(INITIAL, events);
    var tries := Tries(s, caller);
    forall i | i in tries ensures 1 <= s.attempts[i].Entry() <= 3 {
      assert Local(s, i) && Linked(s, i);
    }
    forall i, j | i in tries && j in tries && i < j ensures s.attempts[i].Entry() != s.attempts[j].Entry() {
      assert s.attempts[i].tryCount + 1 <= s.attempts[j].Entry();
    }
    ThreeEntries(s, tries);
  }

  lemma ThreeEntries(s: State, tries: set<nat>)
    requires forall i: nat :: i in tries ==> i < |s.attempts| && 1 <= s.attempts[i].Entry() <= 3
    requires forall i: nat, j: nat :: i in tries && j in tries && i < j ==>
                                        s.attempts[i].Entry() != s.attempts[j].Entry()
    ensures |tries| <= 3
  {
    var first, second, third := EnteredAs(s, tries, 1), EnteredAs(s, tries, 2), EnteredAs(s, tries, 3);
    assert tries == first + second + third;
    OneAtMost(first);
    OneAtMost(second);
    OneAtMost(third);
  }

  function EnteredAs(s: State, tries: set<nat>, entry: int): set<nat>
    requires forall i: nat :: i in tries ==> i < |s.attempts|
  {
    set i: nat | i in tries && s.attempts[i].Entry() == entry
  }

  lemma OneAtMost(s: set<nat>)
    requires forall i: nat, j: nat :: i in s && j in s ==> i >= j
    ensures |s| <= 1
  {
    if x :| x in s {
      assert s == {x};
    }
  }

  // ---- Channels ------------------------------------------------------------------------------------------------

  /** The promise a settled attempt's result has reached so far, going up the chain of attempts it retries. */
  function Holder(s: State, i: nat): (h: nat)
    requires s.Has(i)
    ensures h <= i
    decreases i
  {
    if s.attempts[i].forwarded && s.attempts[i].parent.Some? && s.attempts[i].parent.value < i then
      Holder(s, s.attempts[i].parent.value)
    else i
  }

  lemma {:induction false} HolderResolved(s: State, i: nat)
    requires AllLinked(s) && s.Has(i) && s.attempts[i].outcome.Resolved?
    ensures var h := Holder(s, i);
            && s.attempts[h].outcome == s.attempts[i].outcome && s.attempts[h].caller == s.attempts[i].caller
            && !s.attempts[h].forwarded
    decreases i
  {
    assert Linked(s, i);
    if s.attempts[i].forwarded {
      HolderResolved(s, s.attempts[i].parent.value);
    }
  }

  /**
   Every channel `create` returned is closed again and handed to nobody, or has been handed up the retry chain to the
   promise of the call it was made for.  While it is still on its way up, the promise above is unsettled and the
   hand-over is pending.
   */
  lemma DeliveredOrClosed(events: seq<Event>, k: nat)
    requires IsRun(INITIAL, events) && k < |Run(INITIAL, events).channels|
    ensures var s := Run(INITIAL, events);
            var maker := s.channels[k];
            && s.Has(maker)
            && if k in s.discarded then forall i :: 0 <= i < |s.attempts| ==> s.attempts[i].outcome != Resolved(k)
               else
                 var h, caller := Holder(s, maker), s.attempts[maker].caller;
                 && s.attempts[h].outcome == Resolved(k)
                 && (h == caller || (Enabled(s, Forward(h)) && s.attempts[s.attempts[h].parent.value].outcome.Pending?))
  {
    var s := Run(INITIAL, events);
    RunKeepsInv(INITIAL, events);
    if k in s.discarded {
      forall i | 0 <= i < |s.attempts| ensures s.attempts[i].outcome != Resolved(k) {
        assert Local(s, i);
      }
    } else {
      HolderResolved(s, s.channels[k]);
      assert Linked(s, Holder(s, s.channels[k]));
    }
  }

  /** A promise only ever resolves with a channel made for the same call that has not been closed again. */
  lemma ResolvesWithOwnChannel(events: seq<Event>, i: nat)
    requires IsRun(INITIAL, events) && Run(INITIAL, events).Has(i) && Run(INITIAL, events).attempts[i].outcome.Resolved?
    ensures var s := Run(INITIAL, events);
            var k := s.attempts[i].outcome.channel;
            && k < |s.channels| && k !in s.discarded && s.Has(s.channels[k])
            && s.attempts[s.channels[k]].caller == s.attempts[i].caller
  {
    var s := Run(INITIAL, events);
    RunKeepsInv(INITIAL, events);
    assert Local(s, i) && SameCall(s, i);
  }

  // ---- No caller is stranded -----------------------------------------------------------------------------------

  /** A live retry of attempt `i` whose result has not reached it yet. */
  predicate Retrying(s: State, i: nat) {
    s.Has(i) && s.attempts[i].child.Some? && s.Has(s.attempts[i].child.value) &&
    !s.attempts[s.attempts[i].child.value].forwarded
  }

  /** An unsettled promise has a timer running, a pending handshake or clean-up await, or a live retry. */
  predicate Awaited(s: State, i: nat)
    requires s.Has(i)
  {
    s.attempts[i].Settled() || s.attempts[i].Timed() || s.attempts[i].phase.Handshake? ||
    s.attempts[i].phase.Unlinking? || Retrying(s, i)
  }

  predicate AllAwaited(s: State) { forall i :: 0 <= i < |s.attempts| ==> Awaited(s, i) }

  /** After its code has run, attempt `a` is awaited, and so is every attempt its code started. */
  predicate Continues(s: State, s': State, a: nat) {
    && s'.Has(a) && |s.attempts| <= |s'.attempts| && Awaited(s', a)
    && (forall j :: |s.attempts| <= j < |s'.attempts| ==> s'.attempts[j].Settled() || s'.attempts[j].Timed())
  }

  lemma OpenAwaits(s: State, address: Address, isBle: bool, signal: Option<Signal>, tryCount: int,
                   parent: Option<nat>, peripheral: Peripheral)
    requires ParentOk(s, parent)
    ensures var s' := Open(s, address, isBle, signal, tryCount, parent, peripheral);
            && |s'.attempts| == |s.attempts| + 1
            && (s'.attempts[|s.attempts|].Settled() || s'.attempts[|s.attempts|].Timed())
  {
    var s' := Open(s, address, isBle, signal, tryCount, parent, peripheral);
    var n := |s.attempts|;
    var caller := if parent.Some? then s.attempts[parent.value].caller else n;
    var refusal := Refusal(s, address, isBle, signal, tryCount, peripheral);
    if refusal.Some? {
      assert s'.attempts[n] == Refused(caller, parent, address, signal, tryCount, refusal.value);
    } else {
      assert s'.attempts[n] == Accepted(caller, parent, address, signal, tryCount, peripheral.state);
    }
  }

  lemma RetryContinues(s: State, a: nat, peripheral: Peripheral)
    requires s.Has(a)
    ensures Continues(s, Retry(s, a, peripheral), a) && Retrying(Retry(s, a, peripheral), a)
    ensures Retry(s, a, peripheral).attempts[a].child == Some(|s.attempts|)
  {
    var s1 := StopListening(Abandon(s, a), a, true);
    var at := s1.attempts[a];
    OpenAwaits(s1, at.address, true, at.signal, at.tryCount + 1, Some(a), peripheral);
    OpenGrows(s1, at.address, true, at.signal, at.tryCount + 1, Some(a), peripheral);
  }

  lemma AbandonContinues(s: State, s': State, a: nat)
    requires s.Has(a) && Continues(s, s', a) && Retrying(s', a) && s'.attempts[a].child.value != a
    ensures Continues(s, Abandon(s', a), a)
  {
    AbandonLeaves(s', a);
    assert Retrying(Abandon(s', a), a);
  }

  lemma RetryAndReturnContinues(s: State, a: nat, peripheral: Peripheral)
    requires s.Has(a)
    ensures Continues(s, RetryAndReturn(s, a, peripheral), a)
  {
    var s1 := Enter(s, a, Finished);
    RetryContinues(s1, a, peripheral);
    AbandonContinues(s1, Retry(s1, a, peripheral), a);
  }

  lemma GiveUpContinues(s: State, a: nat, toConnect: bool, error: Error)
    requires s.Has(a)
    ensures Continues(s, GiveUp(s, a, toConnect, error), a)
  {
  }

  lemma FailLinkContinues(s: State, a: nat, linked: bool, peripheral: Peripheral)
    requires s.Has(a)
    ensures Continues(s, FailLink(s, a, linked, peripheral), a)
  {
    if !linked {
      RetryAndReturnContinues(DropChannel(s, a), a, peripheral);
    }
  }

  lemma ConnectHandledContinues(s: State, a: nat)
    requires Inv(s) && s.Has(a) && s.attempts[a].onConnect && Awaited(s, a)
    ensures Continues(s, ConnectHandled(s, a), a)
  {
    assert Local(s, a);
  }

  lemma ConnectErrorHandledContinues(s: State, a: nat, peripheral: Peripheral)
    requires Inv(s) && s.Has(a) && s.attempts[a].onConnect && Awaited(s, a)
    ensures Continues(s, ConnectErrorHandled(s, a, peripheral), a)
  {
    assert Local(s, a);
    if a in s.guards {
      RetryContinues(Put(s, a, s.attempts[a].(onConnect := false, connectTimer := false, phase := Finished)), a,
                     peripheral);
    }
  }

  lemma ConnectRejectedContinues(s: State, a: nat, peripheral: Peripheral)
    requires Inv(s) && s.Has(a) && s.attempts[a].connecting && Awaited(s, a)
    ensures Continues(s, ConnectRejected(s, a, peripheral), a)
  {
    assert Local(s, a) && Linked(s, a);
    if a in s.guards {
      RetryContinues(Put(s, a, s.attempts[a].(connecting := false)), a, peripheral);
    }
  }

  lemma InterviewedContinues(s: State, a: nat, result: InterviewResult)
    requires Inv(s) && s.Has(a) && s.attempts[a].phase.Interview? && Awaited(s, a)
    ensures Continues(s, Interviewed(s, a, result), a)
  {
    if a !in s.guards {
      assert s.attempts[a].Settled() || (Retrying(s, a) && s.attempts[a].child.value != a) by {
        assert Local(s, a) && Linked(s, a);
      }
      ReturnContinues(s, a);
    } else if result.Failed? {
      RetryAndReturnContinues(s, a, result.peripheral);
    } else if result.NoMatch? {
      GiveUpContinues(Enter(s, a, Finished), a, false, MissingCharacteristics);
    }
  }

  lemma ReturnContinues(s: State, a: nat)
    requires s.Has(a) && (s.attempts[a].Settled() || (Retrying(s, a) && s.attempts[a].child.value != a))
    ensures Continues(s, Abandon(Enter(s, a, Finished), a), a)
  {
  }

  lemma CreatedContinues(s: State, a: nat)
    requires s.Has(a)
    ensures Continues(s, Created(s, a), a)
  {
  }

  lemma DiscardedContinues(s: State, a: nat)
    requires Inv(s) && s.Has(a) && s.attempts[a].phase.Discarding?
    ensures Continues(s, Abandon(Enter(s, a, Finished), a), a)
  {
    assert Local(s, a);
  }

  lemma LinkDropContinues(s: State, a: nat)
    requires Inv(s) && Enabled(s, LinkDrops(a)) && Awaited(s, a)
    ensures Continues(s, Next(s, LinkDrops(a)), a)
  {
    assert Linked(s, a);
  }

  lemma ActorContinues(s: State, e: Event)
    requires Inv(s) && Enabled(s, e) && Actor(e).Some? && !e.Forward? && Awaited(s, e.a)
    ensures Continues(s, Next(s, e), e.a)
  {
    match e
    case AbortFires(a) => GiveUpContinues(s, a, true, Aborted);
    case ConnectTimeout(a) => GiveUpContinues(s, a, true, ConnectTimedOut);
    case DisconnectTimeout(a) => GiveUpContinues(s, a, false, DisconnectTimedOut);
    case InterviewTimeout(a) => GiveUpContinues(s, a, false, InterviewTimedOut);
    case ConnectSucceeds(a) => ConnectHandledContinues(s, a);
    case ConnectFails(a, peripheral) => ConnectErrorHandledContinues(s, a, peripheral);
    case ConnectRejects(a, peripheral) => ConnectRejectedContinues(s, a, peripheral);
    case Disconnects(a, peripheral) => RetryContinues(s, a, peripheral);
    case InterviewResumes(a, result) => InterviewedContinues(s, a, result);
    case CreateReturns(a) => CreatedContinues(s, a);
    case CreateThrows(a, linked, peripheral) => FailLinkContinues(s, a, linked, peripheral);
    case DiscardReturns(a) => DiscardedContinues(s, a);
    case DiscardThrows(a, linked, peripheral) => FailLinkContinues(s, a, linked, peripheral);
    case UnlinkReturns(a, peripheral) => RetryAndReturnContinues(s, a, peripheral);
    case LinkDrops(a) => LinkDropContinues(s, a);
  }

  lemma OtherStaysAwaited(s: State, e: Event, i: nat)
    requires Inv(s) && Enabled(s, e) && s.Has(i) && Actor(e) != Some(i) && Awaited(s, i)
    ensures Next(s, e).Has(i) && Awaited(Next(s, e), i)
  {
    OthersUnchanged(s, e, i);
    if Retrying(s, i) {
      OtherStaysRetrying(s, e, i);
    }
  }

  lemma OtherStaysRetrying(s: State, e: Event, i: nat)
    requires Inv(s) && Enabled(s, e) && s.Has(i) && Actor(e) != Some(i) && Retrying(s, i)
    ensures Next(s, e).Has(i) && Awaited(Next(s, e), i)
  {
    OthersUnchanged(s, e, i);
    var c := s.attempts[i].child.value;
    if Actor(e) == Some(c) {
      assert c != i && s.attempts[c].parent == Some(i) by {
        assert Linked(s, i);
      }
      ChildActs(s, e, c);
    } else {
      OthersUnchanged(s, e, c);
    }
  }

  /** A retry marks its result as forwarded only in the step that settles the attempt it retries. */
  lemma ChildActs(s: State, e: Event, c: nat)
    requires Enabled(s, e) && Actor(e) == Some(c) && s.Has(c)
    requires s.attempts[c].parent.Some? && s.attempts[c].parent.value != c
    ensures var s', p := Next(s, e), s.attempts[c].parent.value;
            && s'.Has(c)
            && if e.Forward? then s'.Has(p) && s'.attempts[p].Settled()
               else s'.attempts[c].forwarded == s.attempts[c].forwarded
  {
    if e.Forward? {
      ForwardedForwards(s, c);
    } else {
      ActorLeaves(s, e);
    }
  }

  lemma StepKeepsAwaited(s: State, e: Event)
    requires Inv(s) && AllAwaited(s) && Enabled(s, e)
    ensures AllAwaited(Next(s, e))
  {
    var s' := Next(s, e);
    forall i | 0 <= i < |s'.attempts| ensures Awaited(s', i) {
      if i < |s.attempts| && Actor(e) != Some(i) {
        OtherStaysAwaited(s, e, i);
      } else if e.OpenChannel? {
        OpenAwaits(s, e.address, e.isBle, e.signal, 1, None, e.peripheral);
      } else if Actor(e).Some? && !e.Forward? {
        ActorContinues(s, e);
      } else if e.Forward? {
        assert Linked(s, e.a);
        ForwardedForwards(s, e.a);
      }
    }
  }

  lemma {:induction false} RunKeepsAwaited(s: State, events: seq<Event>)
    requires Inv(s) && AllAwaited(s) && IsRun(s, events)
    ensures AllAwaited(Run(s, events))
    decreases |events|
  {
    if events != [] {
      StepKeepsInv(s, events[0]);
      StepKeepsAwaited(s, events[0]);
      RunKeepsAwaited(Next(s, events[0]), events[1..]);
    }
  }

  /** No caller waits for nothing: in every run an unsettled attempt is still awaited. */
  lemma NobodyStranded(events: seq<Event>, i: nat)
    requires IsRun(INITIAL, events) && Run(INITIAL, events).Has(i)
    ensures Awaited(Run(INITIAL, events), i)
  {
    RunKeepsAwaited(INITIAL, events);
  }

  // ---- Every caller can settle ---------------------------------------------------------------------------------

  /** Timeouts, results of handshakes and clean-ups, and hand-overs: what an unsettled attempt may be waiting for. */
  predicate Awaitable(e: Event) {
    || e.ConnectTimeout? || e.DisconnectTimeout? || e.InterviewTimeout?
    || e.CreateReturns? || e.UnlinkReturns? || e.Forward?
  }

  predicate AllAwaitable(run: seq<Event>) { forall k :: 0 <= k < |run| ==> Awaitable(run[k]) }

  /** The run settles attempt `i`, does not pass its result up yet and leaves all earlier attempts alone. */
  predicate Settles(s: State, run: seq<Event>, i: nat)
    requires s.Has(i)
  {
    && IsRun(s, run) && AllAwaitable(run)
    && var s' := Run(s, run);
       && Inv(s') && s'.Has(i) && s'.attempts[i].Settled()
       && s'.attempts[i].forwarded == s.attempts[i].forwarded && s'.attempts[i].parent == s.attempts[i].parent
       && forall j :: 0 <= j < i ==> s'.attempts[j] == s.attempts[j]
  }

  lemma RunOne(s: State, e: Event)
    requires Enabled(s, e)
    ensures IsRun(s, [e]) && Run(s, [e]) == Next(s, e)
  {
    assert [e][1..] == [];
  }

  lemma {:induction false} RunAppend(s: State, a: seq<Event>, b: seq<Event>)
    requires IsRun(s, a) && IsRun(Run(s, a), b)
    ensures IsRun(s, a + b) && Run(s, a + b) == Run(Run(s, a), b)
    decreases |a|
  {
    if a == [] {
      assert a + b == b;
    } else {
      assert (a + b)[1..] == a[1..] + b;
      RunAppend(Next(s, a[0]), a[1..], b);
    }
  }

  function TimeoutOf(s: State, i: nat): Event
    requires s.Has(i) && s.attempts[i].Timed()
  {
    if s.attempts[i].connectTimer then ConnectTimeout(i)
    else if s.attempts[i].disconnectTimer then DisconnectTimeout(i) else InterviewTimeout(i)
  }

  lemma GiveUpKeepsLinks(s: State, a: nat, toConnect: bool, error: Error)
    requires s.Has(a)
    ensures var s' := GiveUp(s, a, toConnect, error);
            s'.Has(a) && s'.attempts[a].parent == s.attempts[a].parent &&
            s'.attempts[a].forwarded == s.attempts[a].forwarded
  {
  }

  lemma ActorSettles(s: State, e: Event)
    requires Inv(s) && Enabled(s, e) && Actor(e).Some? && !e.Forward? && Awaitable(e)
    requires Next(s, e).Has(e.a) && Next(s, e).attempts[e.a].Settled()
    requires Next(s, e).attempts[e.a].forwarded == s.attempts[e.a].forwarded
    requires Next(s, e).attempts[e.a].parent == s.attempts[e.a].parent
    ensures Settles(s, [e], e.a)
  {
    ActorLeaves(s, e);
    StepKeepsInv(s, e);
    RunOne(s, e);
  }

  lemma TimedSettles(s: State, i: nat)
    requires Inv(s) && s.Has(i) && s.attempts[i].Timed()
    ensures Settles(s, [TimeoutOf(s, i)], i)
  {
    var e := TimeoutOf(s, i);
    ArmedIsPending(s, i);
    GivingUpStep(s, e);
    GiveUpKeepsLinks(s, i, e.ConnectTimeout?, Cause(e));
    ActorSettles(s, e);
  }

  lemma HandOverSettles(s: State, a: nat)
    requires s.Has(a)
    ensures var a' := HandOver(s, a).attempts[a];
            a'.Settled() && a'.parent == s.attempts[a].parent && a'.forwarded == s.attempts[a].forwarded
  {
  }

  lemma AbandonKeepsLinks(s: State, a: nat)
    requires s.Has(a)
    ensures var a' := Abandon(s, a).attempts[a];
            a'.parent == s.attempts[a].parent && a'.forwarded == s.attempts[a].forwarded
  {
  }

  lemma HandshakeSettles(s: State, i: nat)
    requires Inv(s) && s.Has(i) && s.attempts[i].phase.Handshake?
    ensures Settles(s, [CreateReturns(i)], i)
  {
    AbandonKeepsLinks(s, i);
    HandOverSettles(Abandon(s, i), i);
    ActorSettles(s, CreateReturns(i));
  }

  /** The retry of `i` has settled: passing its result up settles `i`. */
  lemma ForwardSettles(s: State, run: seq<Event>, i: nat, c: nat)
    requires Inv(s) && s.Has(i) && s.attempts[i].outcome.Pending? && AllAwaitable(run)
    requires IsRun(s, run) && Inv(Run(s, run))
    requires Run(s, run).Has(i) && Run(s, run).Has(c) && Run(s, run).attempts[c].parent == Some(i)
    requires Run(s, run).attempts[c].Settled() && !Run(s, run).attempts[c].forwarded
    requires Run(s, run).attempts[i].forwarded == s.attempts[i].forwarded
    requires Run(s, run).attempts[i].parent == s.attempts[i].parent
    requires forall j :: 0 <= j < i ==> Run(s, run).attempts[j] == s.attempts[j]
    ensures Settles(s, run + [Forward(c)], i)
  {
    var s1 := Run(s, run);
    assert i < c by {
      assert Linked(s1, c);
    }
    ForwardEffect(s1, c, i);
    StepKeepsInv(s1, Forward(c));
    RunOne(s1, Forward(c));
    RunAppend(s, run, [Forward(c)]);
  }

  lemma ForwardEffect(s: State, c: nat, i: nat)
    requires Enabled(s, Forward(c)) && s.attempts[c].parent == Some(i) && i < c
    ensures var s' := Next(s, Forward(c));
            && |s'.attempts| == |s.attempts| && s'.attempts[i].Settled()
            && s'.attempts[i].forwarded == s.attempts[i].forwarded && s'.attempts[i].parent == s.attempts[i].parent
            && forall j :: 0 <= j < i ==> s'.attempts[j] == s.attempts[j]
  {
    ForwardedForwards(s, c);
  }

  /** A retry that does not find its peripheral is refused at once. */
  lemma UnknownIsRefused(s: State, a: nat)
    requires s.Has(a)
    ensures var s', n := Retry(s, a, Unknown), |s.attempts|;
            && |s'.attempts| == n + 1 && s'.attempts[n].Settled() && s'.attempts[n].parent == Some(a)
            && !s'.attempts[n].forwarded
            && s'.attempts[a].parent == s.attempts[a].parent && s'.attempts[a].forwarded == s.attempts[a].forwarded
  {
    AbandonKeepsLinks(s, a);
    AbandonLeaves(s, a);
    var s1 := StopListening(Abandon(s, a), a, true);
    assert |s1.attempts| == |s.attempts|;
    var at := s1.attempts[a];
    assert Refusal(s1, at.address, true, at.signal, at.tryCount + 1, Unknown).Some?;
  }

  lemma UnlinkedIsRefused(s: State, a: nat)
    requires s.Has(a)
    ensures var s', n := RetryAndReturn(s, a, Unknown), |s.attempts|;
            && |s'.attempts| == n + 1 && s'.attempts[n].Settled() && s'.attempts[n].parent == Some(a)
            && !s'.attempts[n].forwarded
            && s'.attempts[a].parent == s.attempts[a].parent && s'.attempts[a].forwarded == s.attempts[a].forwarded
  {
    var s1 := Enter(s, a, Finished);
    UnknownIsRefused(s1, a);
    var s2 := Retry(s1, a, Unknown);
    AbandonKeepsLinks(s2, a);
    AbandonLeaves(s2, a);
  }

  lemma UnlinkingSettles(s: State, i: nat) returns (run: seq<Event>)
    requires Inv(s) && s.Has(i) && s.attempts[i].outcome.Pending? && s.attempts[i].phase.Unlinking?
    ensures Settles(s, run, i)
  {
    var e := UnlinkReturns(i, Unknown);
    UnlinkedIsRefused(s, i);
    ActorLeaves(s, e);
    StepKeepsInv(s, e);
    RunOne(s, e);
    ForwardSettles(s, [e], i, |s.attempts|);
    run := [e] + [Forward(|s.attempts|)];
  }

  lemma {:induction false} CanSettle(s: State, i: nat) returns (run: seq<Event>)
    requires Inv(s) && AllAwaited(s) && s.Has(i) && s.attempts[i].outcome.Pending?
    ensures Settles(s, run, i)
    decreases |s.attempts| - i
  {
    assert Awaited(s, i);
    if s.attempts[i].Timed() {
      TimedSettles(s, i);
      run := [TimeoutOf(s, i)];
    } else if s.attempts[i].phase.Handshake? {
      HandshakeSettles(s, i);
      run := [CreateReturns(i)];
    } else if s.attempts[i].phase.Unlinking? {
      run := UnlinkingSettles(s, i);
    } else {
      run := RetrySettles(s, i);
    }
  }

  lemma {:induction false} RetrySettles(s: State, i: nat) returns (run: seq<Event>)
    requires Inv(s) && AllAwaited(s) && s.Has(i) && s.attempts[i].outcome.Pending? && Retrying(s, i)
    ensures Settles(s, run, i)
    decreases |s.attempts| - i, 0
  {
    var c := s.attempts[i].child.value;
    assert i < c && s.attempts[c].parent == Some(i) by {
      assert Linked(s, i);
    }
    var before: seq<Event> := [];
    if s.attempts[c].outcome.Pending? {
      before := CanSettle(s, c);
    }
    ForwardSettles(s, before, i, c);
    run := before + [Forward(c)];
  }

  /**
   Every caller can settle: from every state of every run a finite continuation of timeouts, handshake and clean-up
   results and hand-overs settles an unsettled attempt.
   */
  lemma EveryoneCanSettle(events: seq<Event>, i: nat)
    requires IsRun(INITIAL, events) && Run(INITIAL, events).Has(i) && Run(INITIAL, events).attempts[i].outcome.Pending?
    ensures exists run :: AllAwaitable(run) && IsRun(INITIAL, events + run) && Run(INITIAL, events + run).Has(i) &&
                          Run(INITIAL, events + run).attempts[i].Settled()
  {
    RunKeepsInv(INITIAL, events);
    RunKeepsAwaited(INITIAL, events);
    var run := CanSettle(Run(INITIAL, events), i);
    RunAppend(INITIAL, events, run);
  }
}
