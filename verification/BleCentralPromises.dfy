/**
 What each callback of `NobleBleCentralInterface` promises, whatever ran before it
 (packages/nodejs-ble/src/NobleBleChannel.ts).  The promises name what a caller can see: which attempt is started and
 when, with what it goes on, what is settled with which outcome, what is let go, and what stays as it was.
 */
module BleCentralPromises {
  import opened Options
  import opened BleCentral
  import opened BleCentralSafety
  import opened BleCentralRuns

  // ---- Entering an attempt -------------------------------------------------------------------------------------

  /** A call of `#openChannel`; `parent` is the attempt it retries. */
  datatype Request = Request(
    address: Address,
    isBle: bool,
    signal: Option<Signal>,
    tryCount: int,
    parent: Option<nat>,
    peripheral: Peripheral)

  /** The reasons to refuse an attempt, in the order in which they are looked for. */
  const ENTRY_CHECKS: seq<Error> :=
    [InterfaceClosed, NotAdded, UnsupportedAddress, Aborted, TooManyTries, UnknownDevice, AlreadyConnected,
     AlreadyInProgress]

  /** Whether a reason applies, given the addresses with an open channel. */
  ghost predicate Reason(s: State, open: set<Address>, r: Request, error: Error) {
    match error
    case InterfaceClosed => s.closed
    case NotAdded => !s.listening
    case UnsupportedAddress => !r.isBle
    case Aborted => s.IsAborted(r.signal)
    case TooManyTries => r.tryCount > 3
    case UnknownDevice => r.peripheral.Unknown?
    case AlreadyConnected => r.address in open
    case AlreadyInProgress => exists i: nat :: r.parent != Some(i) && Owns(s, i, r.address)
    case _ => false
  }

  ghost predicate Free(s: State, open: set<Address>, r: Request) {
    forall k :: 0 <= k < |ENTRY_CHECKS| ==> !Reason(s, open, r, ENTRY_CHECKS[k])
  }

  /** The first reason that applies is number `k`. */
  ghost predicate RefusedBy(s: State, open: set<Address>, r: Request, k: nat) {
    && k < |ENTRY_CHECKS| && Reason(s, open, r, ENTRY_CHECKS[k])
    && forall j :: 0 <= j < k ==> !Reason(s, open, r, ENTRY_CHECKS[j])
  }

  /** What an accepted attempt waits for depends on the state it found the peripheral in. */
  predicate StartsAs(a: Attempt, state: PeripheralState) {
    && a.outcome.Pending? && a.ownsSlot && a.onAbort == a.signal.Some? && !a.onDrop
    && a.phase == (if state.Connected? then Interview else Waiting)
    && a.interviewTimer == state.Connected? && a.disconnectTimer == state.Disconnecting?
    && a.foundDisconnecting == state.Disconnecting? && a.onDisconnect == !state.Connected?
    && a.connectTimer == a.onConnect == a.connecting == (state.Connecting? || state.Other?)
  }

  /** A refused attempt is over at once. */
  predicate EndsAs(a: Attempt, error: Error) {
    && a.outcome == Rejected(error) && a.phase.Finished? && !a.Timed() && !a.ownsSlot && !a.foundDisconnecting
    && !a.onConnect && !a.onDisconnect && !a.onAbort && !a.onDrop && !a.connecting
  }

  /** One attempt was added, for the request; it got past the entry checks exactly when no reason applied. */
  ghost predicate Enters(s: State, s': State, r: Request) {
    var n := |s.attempts|;
    && ParentOk(s, r.parent) && |s'.attempts| == n + 1
    && var a := s'.attempts[n];
    && a.address == r.address && a.signal == r.signal && a.Entry() == r.tryCount
    && a.parent == r.parent && a.child.None? && !a.forwarded
    && a.caller == (if r.parent.Some? then s.attempts[r.parent.value].caller else n)
    && (a.started <==> Free(s, s'.openChannels, r))
    && (a.started ==>
          r.peripheral.Found? && StartsAs(a, r.peripheral.state) && n in s'.guards && r.address in s'.inProgress)
    && (!a.started ==>
          n !in s'.guards &&
          exists k: nat :: RefusedBy(s, s'.openChannels, r, k) && EndsAs(a, ENTRY_CHECKS[k]))
  }

  /** The entry checks as the code makes them, on the reservation set. */
  predicate Fails(s: State, r: Request, k: nat) {
    match k
    case 0 => s.closed
    case 1 => !s.listening
    case 2 => !r.isBle
    case 3 => s.IsAborted(r.signal)
    case 4 => r.tryCount > 3
    case 5 => r.peripheral.Unknown?
    case 6 => r.address in s.openChannels
    case _ => r.address in s.inProgress
  }

  function RefusalOf(s: State, r: Request): Option<Error> {
    Refusal(s, r.address, r.isBle, r.signal, r.tryCount, r.peripheral)
  }

  function OpenFor(s: State, r: Request): State
    requires ParentOk(s, r.parent)
  {
    Open(s, r.address, r.isBle, r.signal, r.tryCount, r.parent, r.peripheral)
  }

  lemma RefusalIsFirst(s: State, r: Request) returns (k: nat)
    ensures k <= 8 && (forall j: nat :: j < k ==> !Fails(s, r, j)) && (k < 8 ==> Fails(s, r, k))
    ensures RefusalOf(s, r) == if k < 8 then Some(ENTRY_CHECKS[k]) else None
  {
    k := 0;
    while k < 8 && !Fails(s, r, k)
      invariant k <= 8 && forall j: nat :: j < k ==> !Fails(s, r, j)
    {
      k := k + 1;
    }
    assert k > 0 ==> !Fails(s, r, 0);
    assert k > 1 ==> !Fails(s, r, 1);
    assert k > 2 ==> !Fails(s, r, 2);
    assert k > 3 ==> !Fails(s, r, 3);
    assert k > 4 ==> !Fails(s, r, 4);
    assert k > 5 ==> !Fails(s, r, 5);
    assert k > 6 ==> !Fails(s, r, 6);
    assert k > 7 ==> !Fails(s, r, 7);
  }

  /** `s1` is `s` after the attempt that is retried, if any, has let its slot go. */
  predicate Ready(s: State, s1: State, parent: Option<nat>) {
    && ParentOk(s, parent) && |s1.attempts| == |s.attempts|
    && s1.closed == s.closed && s1.listening == s.listening && s1.aborted == s.aborted
    && (forall i :: 0 <= i < |s.attempts| && parent != Some(i) ==> s1.attempts[i] == s.attempts[i])
    && (parent.Some? ==> !s1.attempts[parent.value].ownsSlot &&
                         s1.attempts[parent.value].caller == s.attempts[parent.value].caller)
  }

  predicate Slotted(s: State) { SlotsOwned(s) && GuardsExist(s) }

  lemma ReservedByOther(s: State, s1: State, r: Request)
    requires Slotted(s1) && Ready(s, s1, r.parent)
    ensures r.address in s1.inProgress <==> exists i: nat :: r.parent != Some(i) && Owns(s, i, r.address)
  {
    if r.address in s1.inProgress {
      assert Owned(s1, r.address);
      var i :| 0 <= i < |s1.attempts| && s1.attempts[i].ownsSlot && s1.attempts[i].address == r.address;
      assert r.parent != Some(i) && Owns(s, i, r.address);
    }
    if i: nat :| r.parent != Some(i) && Owns(s, i, r.address) {
      assert s1.attempts[i] == s.attempts[i];
    }
  }

  lemma FailsIsReason(s: State, s1: State, r: Request, k: nat)
    requires Slotted(s1) && Ready(s, s1, r.parent) && k < 8
    ensures Fails(s1, r, k) <==> Reason(s, s1.openChannels, r, ENTRY_CHECKS[k])
  {
    ReservedByOther(s, s1, r);
  }

  lemma OpenedAttempt(s: State, r: Request)
    requires ParentOk(s, r.parent)
    ensures var s', n, refusal := OpenFor(s, r), |s.attempts|, RefusalOf(s, r);
            && |s'.attempts| == n + 1 && s'.openChannels == s.openChannels
            && var a := s'.attempts[n];
            && a.started == refusal.None? && (refusal.Some? ==> EndsAs(a, refusal.value))
            && (refusal.None? ==>
                  r.peripheral.Found? && StartsAs(a, r.peripheral.state) && n in s'.guards &&
                  r.address in s'.inProgress)
            && (refusal.Some? ==> s'.guards == s.guards)
  {
  }

  lemma OpenEnters(s: State, s1: State, r: Request)
    requires Slotted(s1) && Ready(s, s1, r.parent)
    ensures Enters(s, OpenFor(s1, r), r)
  {
    var s' := OpenFor(s1, r);
    OpenGrows(s1, r.address, r.isBle, r.signal, r.tryCount, r.parent, r.peripheral);
    OpenedAttempt(s1, r);
    var k := RefusalIsFirst(s1, r);
    forall j: nat | j < 8 ensures Fails(s1, r, j) <==> Reason(s, s'.openChannels, r, ENTRY_CHECKS[j]) {
      FailsIsReason(s, s1, r, j);
    }
    if k < 8 {
      assert RefusedBy(s, s'.openChannels, r, k);
    }
    assert |s.attempts| !in s1.guards;
  }

  // ---- What the code of an attempt does ------------------------------------------------------------------------

  /** Channels, listeners for messages, signals and the guards of other attempts stay as they were. */
  predicate Frames(s: State, s': State, a: nat) {
    && s'.openChannels == s.openChannels && s'.channels == s.channels && s'.discarded == s.discarded
    && OtherGuards(s, s', a)
  }

  predicate OtherGuards(s: State, s': State, a: nat) {
    && s'.listening == s.listening && s'.aborted == s.aborted
    && (forall i :: 0 <= i < |s.attempts| && i != a ==> (i in s'.guards <==> i in s.guards))
  }

  /**
   The code of attempt `a` ran: no other attempt changed, no settled promise changed, at most one attempt was started,
   none on a closed interface, and an attempt that is settled or handed over to a retry holds nothing.
   */
  predicate Handled(s: State, s': State, a: nat) {
    && Leaves(s, s', a) && OtherGuards(s, s', a)
    && (s'.attempts[a].Settled() || s'.attempts[a].child.Some? ==> !s'.attempts[a].ownsSlot && a !in s'.guards)
  }

  /** No attempt was started and no channel came or went. */
  predicate Alone(s: State, s': State, a: nat) {
    s.Has(a) && Frames(s, s', a) && |s'.attempts| == |s.attempts|
  }

  predicate GivenUp(s: State, s': State, a: nat, error: Error) {
    Alone(s, s', a) && Rejects(s', a, error) && !s'.attempts[a].onConnect
  }

  function RetryOf(s: State, a: nat, found: Peripheral): Request
    requires s.Has(a)
  {
    Request(s.attempts[a].address, true, s.attempts[a].signal, s.attempts[a].tryCount + 1, Some(a), found)
  }

  /**
   The attempt let go of everything but its promise, and exactly one attempt was added that retries it: for the same
   address and signal, with the next try number, and accepted exactly when no entry check stands in its way.
   */
  ghost predicate Retried(s: State, s': State, a: nat, found: Peripheral) {
    && s.Has(a) && s'.channels == s.channels && s'.discarded == s.discarded
    && Enters(s, s', RetryOf(s, a, found))
    && var o, n := s.attempts[a], s'.attempts[a];
    && n.child == Some(|s.attempts|) && n.outcome == o.outcome && n.parent == o.parent
    && !n.Timed() && !n.onAbort && !n.onConnect && !n.onDisconnect && !n.ownsSlot && a !in s'.guards
  }

  /** The attempt is retried if it was still guarded; otherwise nothing happens to anyone. */
  ghost predicate RetriedIfGuarded(s: State, s': State, a: nat, found: Peripheral) {
    && s'.openChannels == s.openChannels
    && if a in s.guards then Retried(s, s', a, found)
       else Alone(s, s', a) && s'.attempts[a].outcome == s.attempts[a].outcome
  }

  /** The link is up: the interview begins if the attempt is still guarded and somebody listens for messages. */
  predicate Interviews(s: State, s': State, a: nat) {
    && Alone(s, s', a)
    && var o, n := s.attempts[a], s'.attempts[a];
    && !n.onConnect && !n.connectTimer && !n.connecting
    && if a in s.guards && s.listening then
         n == o.(onConnect := false, connectTimer := false, connecting := false, interviewTimer := true,
                 phase := Interview) && a in s'.guards
       else if a in s.guards then Rejects(s', a, ListenerCleared)
       else n.phase.Finished? && n.outcome == o.outcome
  }

  /** The interview goes on, fails, finds nothing or ends in a handshake; an abandoned one just ends. */
  ghost predicate Resumed(s: State, s': State, a: nat, result: InterviewResult) {
    && s.Has(a) && s'.Has(a) && s'.channels == s.channels && s'.discarded == s.discarded
    && s'.openChannels ==
         (if a in s.guards && result.Match? then s.openChannels + {s.attempts[a].address} else s.openChannels)
    && var o, n := s.attempts[a], s'.attempts[a];
    if a !in s.guards then |s'.attempts| == |s.attempts| && n.phase.Finished? && n.outcome == o.outcome && !n.ownsSlot
    else
      match result
      case MoreToRead => s' == s
      case Failed(found) => Retried(s, s', a, found) && n.phase.Finished?
      case NoMatch => |s'.attempts| == |s.attempts| && Rejects(s', a, MissingCharacteristics) && n.phase.Finished?
      case Match =>
        && |s'.attempts| == |s.attempts| && a in s'.guards
        && n == o.(interviewTimer := false, onDisconnect := false, onDrop := true, phase := Handshake)
  }

  /** The new channel resolves the attempt's promise, or is to be closed again if that had settled. */
  predicate Delivers(s: State, s': State, a: nat) {
    && s.Has(a) && |s'.attempts| == |s.attempts| && s'.openChannels == s.openChannels
    && s'.channels == s.channels + [a]
    && var k, n := |s.channels|, s'.attempts[a];
    if s.attempts[a].Settled() then
      s'.discarded == s.discarded + {k} && n.phase.Discarding?
    else
      s'.discarded == s.discarded && n.outcome == Resolved(k) && n.phase.Finished?
  }

  /** The address has no open channel any more; a link that is still up is taken down first, then comes the retry. */
  ghost predicate LinkFailed(s: State, s': State, a: nat, linked: bool, found: Peripheral) {
    && s.Has(a) && s'.openChannels == s.openChannels - {s.attempts[a].address}
    && if linked then
         && |s'.attempts| == |s.attempts| && s'.guards == s.guards
         && s'.channels == s.channels && s'.discarded == s.discarded
         && s'.attempts[a] == s.attempts[a].(ownsSlot := false, phase := Unlinking)
       else Retried(s, s', a, found) && s'.attempts[a].phase.Finished?
  }

  predicate Returned(s: State, s': State, a: nat) {
    && Alone(s, s', a) && s'.attempts[a].phase.Finished? && s'.attempts[a].outcome == s.attempts[a].outcome
    && !s'.attempts[a].ownsSlot && a !in s'.guards
  }

  predicate Dropped(s: State, s': State, a: nat) {
    && s.Has(a) && s' == s.(openChannels := s.openChannels - {s.attempts[a].address},
                            attempts := s.attempts[a := s.attempts[a].(onDrop := false)])
  }

  /** The attempt's outcome settles the attempt it retries, unless that had settled; nothing else changes. */
  predicate PassesUp(s: State, s': State, a: nat) {
    && s.Has(a) && s.attempts[a].parent.Some? && s.attempts[a].parent.value < a
    && |s'.attempts| == |s.attempts| && s' == s.(attempts := s'.attempts)
    && s'.attempts[a] == s.attempts[a].(forwarded := true)
    && var p := s.attempts[a].parent.value;
    && (forall i :: 0 <= i < |s.attempts| && i != a && i != p ==> s'.attempts[i] == s.attempts[i])
    && s'.attempts[p] ==
         (if s.attempts[p].Settled() then s.attempts[p] else s.attempts[p].(outcome := s.attempts[a].outcome))
  }

  /** A call adds an attempt for it and changes nothing else. */
  ghost predicate Called(s: State, s': State, r: Request) {
    && Enters(s, s', r) && s'.openChannels == s.openChannels && s'.channels == s.channels
    && s'.discarded == s.discarded && s'.closed == s.closed && s'.listening == s.listening
    && s'.aborted == s.aborted && s'.attempts[..|s.attempts|] == s.attempts
    && forall i :: 0 <= i < |s.attempts| ==> (i in s'.guards <==> i in s.guards)
  }

  /** What the step of an event does, for the one whose code runs and for everybody. */
  ghost predicate Promise(s: State, s': State, e: Event) {
    (Actor(e).Some? && !e.Forward? ==> s.Has(e.a) && Handled(s, s', e.a)) && Effect(s, s', e)
  }

  ghost predicate Effect(s: State, s': State, e: Event) {
    match e
    case OnData => s' == s.(listening := true)
    case OpenChannel(address, isBle, signal, found) => Called(s, s', Request(address, isBle, signal, 1, None, found))
    case Close => s' == s.(closed := true, openChannels := {})
    case Abort(signal) => s' == s.(aborted := s.aborted + {signal})
    case AbortFires(a) => GivenUp(s, s', a, Aborted)
    case ConnectTimeout(a) => GivenUp(s, s', a, ConnectTimedOut)
    case DisconnectTimeout(a) => GivenUp(s, s', a, DisconnectTimedOut)
    case InterviewTimeout(a) => GivenUp(s, s', a, InterviewTimedOut)
    case ConnectSucceeds(a) => Interviews(s, s', a)
    case ConnectFails(a, found) => RetriedIfGuarded(s, s', a, found) && (s'.Has(a) ==> !s'.attempts[a].onConnect)
    case ConnectRejects(a, found) => RetriedIfGuarded(s, s', a, found) && (s'.Has(a) ==> !s'.attempts[a].connecting)
    case Disconnects(a, found) => Retried(s, s', a, found) && s'.openChannels == s.openChannels
    case InterviewResumes(a, result) => Resumed(s, s', a, result)
    case CreateReturns(a) => Delivers(s, s', a)
    case CreateThrows(a, linked, found) => LinkFailed(s, s', a, linked, found)
    case DiscardReturns(a) => Returned(s, s', a)
    case DiscardThrows(a, linked, found) => LinkFailed(s, s', a, linked, found)
    case UnlinkReturns(a, found) => Retried(s, s', a, found) && s'.openChannels == s.openChannels
    case LinkDrops(a) => Dropped(s, s', a)
    case Forward(a) => PassesUp(s, s', a)
  }

  // ---- Every step keeps its promise ----------------------------------------------------------------------------

  /** What `Abandon` leaves of an attempt. */
  function Freed(a: Attempt): Attempt {
    a.(connectTimer := false, interviewTimer := false, disconnectTimer := false, onAbort := false, ownsSlot := false)
  }

  lemma AbandonIs(s: State, a: nat)
    requires s.Has(a)
    ensures var s', o := Abandon(s, a), s.attempts[a];
            && s'.attempts == s.attempts[a := Freed(o)]
            && s' == s.(guards := s.guards - {a}, attempts := s'.attempts,
                        inProgress := if o.ownsSlot then s.inProgress - {o.address} else s.inProgress)
  {
  }

  lemma GiveUpIs(s: State, a: nat, toConnect: bool, error: Error)
    requires s.Has(a) && s.attempts[a].outcome.Pending?
    ensures var s' := GiveUp(s, a, toConnect, error);
            && Frames(s, s', a) && |s'.attempts| == |s.attempts|
            && s'.attempts[a] == Freed(s.attempts[a]).(onDisconnect := false,
                                                       onConnect := s.attempts[a].onConnect && !toConnect,
                                                       outcome := Rejected(error))
  {
    AbandonIs(StopListening(s, a, toConnect), a);
  }

  lemma OpenFrames(s: State, r: Request)
    requires ParentOk(s, r.parent)
    ensures var s' := OpenFor(s, r);
            && s'.openChannels == s.openChannels && s'.channels == s.channels && s'.discarded == s.discarded
            && s'.listening == s.listening && s'.aborted == s.aborted
            && (s'.guards == s.guards || s'.guards == s.guards + {|s.attempts|})
  {
  }

  lemma StoppedIs(s: State, a: nat)
    requires s.Has(a)
    ensures var s1 := StopListening(Abandon(s, a), a, true);
            && s1.attempts[a] == Freed(s.attempts[a]).(onDisconnect := false, onConnect := false)
            && Ready(s, s1, Some(a)) && Frames(s, s1, a) && s1.guards == s.guards - {a}
            && s1.inProgress ==
                 (if s.attempts[a].ownsSlot then s.inProgress - {s.attempts[a].address} else s.inProgress)
  {
    AbandonIs(s, a);
  }

  lemma StoppedIsSlotted(s: State, a: nat)
    requires Slotted(s) && s.Has(a)
    ensures Slotted(StopListening(Abandon(s, a), a, true))
  {
    StoppedIs(s, a);
    TouchKeepsSlots(s, StopListening(Abandon(s, a), a, true), a);
  }

  /** What a retry does to everybody, and what else it leaves of the attempt that is retried. */
  /** Apart from the retry nothing happened: no channel came or went and no other guard changed. */
  ghost predicate RetriesAlone(s: State, s': State, a: nat, found: Peripheral) {
    Retried(s, s', a, found) && s'.openChannels == s.openChannels && OtherGuards(s, s', a)
  }

  lemma RetryIsRetried(s: State, a: nat, found: Peripheral)
    requires Slotted(s) && s.Has(a)
    ensures var s' := Retry(s, a, found);
            && RetriesAlone(s, s', a, found)
            && s'.attempts[a].connecting == s.attempts[a].connecting && s'.attempts[a].phase == s.attempts[a].phase
  {
    var s1, r := StopListening(Abandon(s, a), a, true), RetryOf(s, a, found);
    StoppedIs(s, a);
    StoppedIsSlotted(s, a);
    OpenEnters(s, s1, r);
    OpenFrames(s1, r);
    OpenGrows(s1, r.address, r.isBle, r.signal, r.tryCount, r.parent, r.peripheral);
  }

  /** `s0` differs from `s` in what attempt `a` holds and waits for only, and perhaps in the open channels. */
  predicate Prepares(s: State, s0: State, a: nat) {
    && Ready(s, s0.(attempts := s.attempts), None) && |s0.attempts| == |s.attempts| && s.Has(a)
    && s0.channels == s.channels && s0.discarded == s.discarded && s0.guards == s.guards
    && (forall i :: 0 <= i < |s.attempts| && i != a ==> s0.attempts[i] == s.attempts[i])
    && var o, n := s.attempts[a], s0.attempts[a];
    && n.address == o.address && n.signal == o.signal && n.tryCount == o.tryCount && n.caller == o.caller
    && n.outcome == o.outcome && n.parent == o.parent
  }

  lemma PreparedReason(s: State, s0: State, a: nat, open: set<Address>, r: Request, error: Error)
    requires Prepares(s, s0, a) && r.parent == Some(a)
    ensures Reason(s, open, r, error) <==> Reason(s0, open, r, error)
  {
    forall i: nat | i != a ensures Owns(s, i, r.address) <==> Owns(s0, i, r.address) {
    }
  }

  lemma PreparedRetry(s: State, s0: State, s': State, a: nat, found: Peripheral)
    requires Prepares(s, s0, a) && Retried(s0, s', a, found)
    ensures Retried(s, s', a, found)
  {
    var r := RetryOf(s, a, found);
    forall error ensures Reason(s, s'.openChannels, r, error) <==> Reason(s0, s'.openChannels, r, error) {
      PreparedReason(s, s0, a, s'.openChannels, r, error);
    }
    if !s'.attempts[|s.attempts|].started {
      var k: nat :| RefusedBy(s0, s'.openChannels, r, k) && EndsAs(s'.attempts[|s.attempts|], ENTRY_CHECKS[k]);
      assert RefusedBy(s, s'.openChannels, r, k);
    }
  }

  lemma PreparedGuards(s: State, s0: State, s': State, a: nat)
    requires Prepares(s, s0, a) && OtherGuards(s0, s', a)
    ensures OtherGuards(s, s', a)
  {
  }

  lemma AbandonIdle(s: State, a: nat)
    requires s.Has(a) && a !in s.guards
    requires !s.attempts[a].Timed() && !s.attempts[a].onAbort && !s.attempts[a].ownsSlot
    ensures Abandon(s, a) == s
  {
    AbandonIs(s, a);
    assert Freed(s.attempts[a]) == s.attempts[a];
    assert s.attempts[a := s.attempts[a]] == s.attempts;
  }

  /** Changing what the attempt waits for first makes no difference to its retry. */
  lemma PutRetried(s: State, a: nat, attempt: Attempt, found: Peripheral)
    requires Slotted(s) && s.Has(a) && attempt.ownsSlot == s.attempts[a].ownsSlot
    requires Prepares(s, Put(s, a, attempt), a) && Touches(s, Put(s, a, attempt), a)
    ensures var s' := Retry(Put(s, a, attempt), a, found);
            && RetriesAlone(s, s', a, found)
            && s'.attempts[a].connecting == attempt.connecting && s'.attempts[a].phase == attempt.phase
  {
    var s0 := Put(s, a, attempt);
    TouchKeepsSlots(s, s0, a);
    RetryIsRetried(s0, a, found);
    PreparedRetry(s, s0, Retry(s0, a, found), a, found);
    PreparedGuards(s, s0, Retry(s0, a, found), a);
  }

  lemma FinishingPrepares(s: State, a: nat)
    requires s.Has(a)
    ensures Prepares(s, Enter(s, a, Finished), a) && Touches(s, Enter(s, a, Finished), a)
  {
  }

  lemma FinishedRetry(s: State, s0: State, a: nat, found: Peripheral)
    requires Slotted(s) && s.Has(a) && s0 == Enter(s, a, Finished)
    ensures RetriesAlone(s, Retry(s0, a, found), a, found) && Retry(s0, a, found).attempts[a].phase.Finished?
  {
    FinishingPrepares(s, a);
    PutRetried(s, a, s.attempts[a].(phase := Finished), found);
  }

  lemma RetryAndReturnIsRetried(s: State, a: nat, found: Peripheral)
    requires Slotted(s) && s.Has(a)
    ensures var s' := RetryAndReturn(s, a, found);
            && RetriesAlone(s, s', a, found)
            && s'.attempts[a].phase.Finished?
  {
    var s0 := Enter(s, a, Finished);
    FinishedRetry(s, s0, a, found);
    AbandonIdle(Retry(s0, a, found), a);
  }

  predicate GivesUpWith(e: Event, error: Error) {
    match e
    case AbortFires(_) => error.Aborted?
    case ConnectTimeout(_) => error.ConnectTimedOut?
    case DisconnectTimeout(_) => error.DisconnectTimedOut?
    case InterviewTimeout(_) => error.InterviewTimedOut?
    case _ => false
  }

  lemma GivingUp(s: State, e: Event, error: Error)
    requires Inv(s) && Enabled(s, e) && GivesUpWith(e, error)
    ensures GivenUp(s, Next(s, e), e.a, error)
  {
    assert Local(s, e.a);
    ArmedIsPending(s, e.a);
    PendingGivesUp(s, e.a, e.AbortFires? || e.ConnectTimeout?, error);
  }

  lemma PendingGivesUp(s: State, a: nat, toConnect: bool, error: Error)
    requires s.Has(a) && s.attempts[a].outcome.Pending? && s.attempts[a].child.None?
    requires toConnect || !s.attempts[a].onConnect
    ensures GivenUp(s, GiveUp(s, a, toConnect, error), a, error)
  {
    GiveUpIs(s, a, toConnect, error);
    AbandonIs(StopListening(s, a, toConnect), a);
  }

  lemma ConnectInterviews(s: State, a: nat)
    requires Inv(s) && Enabled(s, ConnectSucceeds(a))
    ensures Interviews(s, Next(s, ConnectSucceeds(a)), a)
  {
    assert Local(s, a);
    var s1 := Put(s, a, s.attempts[a].(onConnect := false, connectTimer := false, connecting := false));
    if a in s.guards && !s.listening {
      assert s.attempts[a].outcome.Pending? && s.attempts[a].child.None?;
      GiveUpIs(Enter(s1, a, Finished), a, false, ListenerCleared);
    }
  }

  lemma ConnectErrorRetried(s: State, a: nat, found: Peripheral)
    requires Inv(s) && Enabled(s, ConnectFails(a, found))
    ensures var s' := Next(s, ConnectFails(a, found));
            Effect(s, s', ConnectFails(a, found)) && OtherGuards(s, s', a)
  {
    if a in s.guards {
      PutRetried(s, a, s.attempts[a].(onConnect := false, connectTimer := false, phase := Finished), found);
    }
  }

  lemma ConnectRejectionRetried(s: State, a: nat, found: Peripheral)
    requires Inv(s) && Enabled(s, ConnectRejects(a, found))
    ensures var s' := Next(s, ConnectRejects(a, found));
            Effect(s, s', ConnectRejects(a, found)) && OtherGuards(s, s', a)
  {
    if a in s.guards {
      PutRetried(s, a, s.attempts[a].(connecting := false), found);
    }
  }

  lemma ReturnIs(s: State, a: nat)
    requires s.Has(a)
    ensures Returned(s, Abandon(Enter(s, a, Finished), a), a)
  {
    AbandonIs(Enter(s, a, Finished), a);
  }

  lemma NoMatchRejects(s: State, a: nat)
    requires Inv(s) && s.Has(a) && a in s.guards
    ensures var s' := GiveUp(Enter(s, a, Finished), a, false, MissingCharacteristics);
            && Alone(s, s', a) && Rejects(s', a, MissingCharacteristics) && s'.attempts[a].phase.Finished?
  {
    assert Local(s, a);
    GiveUpIs(Enter(s, a, Finished), a, false, MissingCharacteristics);
  }

  lemma InterviewResumed(s: State, a: nat, result: InterviewResult)
    requires Inv(s) && Enabled(s, InterviewResumes(a, result))
    ensures var s' := Next(s, InterviewResumes(a, result));
            Resumed(s, s', a, result) && OtherGuards(s, s', a)
  {
    if a !in s.guards {
      ReturnIs(s, a);
    } else if result.Failed? {
      RetryAndReturnIsRetried(s, a, result.peripheral);
    } else if result.NoMatch? {
      NoMatchRejects(s, a);
    }
  }

  lemma HandOverIs(s: State, a: nat)
    requires s.Has(a)
    ensures var s', k, o := HandOver(s, a), |s.channels|, s.attempts[a];
            && s'.attempts == s.attempts[a := s'.attempts[a]]
            && s' == s.(channels := s.channels + [a], attempts := s'.attempts,
                        discarded := if o.Settled() then s.discarded + {k} else s.discarded)
            && s'.attempts[a] == (if o.Settled() then o.(phase := Discarding)
                                  else o.(outcome := Resolved(k), phase := Finished))
  {
  }

  lemma HandshakeDelivers(s: State, a: nat)
    requires s.Has(a)
    ensures Delivers(s, Created(s, a), a) && OtherGuards(s, Created(s, a), a)
  {
    AbandonIs(s, a);
    HandOverIs(Abandon(s, a), a);
  }

  lemma DropIs(s: State, a: nat)
    requires s.Has(a)
    ensures var s0, o := DropChannel(s, a), s.attempts[a];
            && s0.attempts == s.attempts[a := o.(ownsSlot := false)]
            && s0 == s.(openChannels := s.openChannels - {o.address}, attempts := s0.attempts,
                        inProgress := if o.ownsSlot then s.inProgress - {o.address} else s.inProgress)
  {
    assert !s.attempts[a].ownsSlot ==> s.attempts[a].(ownsSlot := false) == s.attempts[a];
    assert s.attempts[a := s.attempts[a]] == s.attempts;
  }

  lemma DropPrepares(s: State, a: nat)
    requires Slotted(s) && s.Has(a)
    ensures Prepares(s, DropChannel(s, a), a) && Slotted(DropChannel(s, a))
  {
    DropIs(s, a);
    TouchKeepsSlots(s, DropChannel(s, a), a);
  }

  lemma LinkFails(s: State, a: nat, linked: bool, found: Peripheral)
    requires Slotted(s) && s.Has(a)
    ensures var s' := FailLink(s, a, linked, found);
            LinkFailed(s, s', a, linked, found) && OtherGuards(s, s', a)
  {
    var s0 := DropChannel(s, a);
    DropIs(s, a);
    DropPrepares(s, a);
    if !linked {
      RetryAndReturnIsRetried(s0, a, found);
      PreparedRetry(s, s0, RetryAndReturn(s0, a, found), a, found);
      PreparedGuards(s, s0, RetryAndReturn(s0, a, found), a);
    }
  }

  lemma ForwardPassesUp(s: State, a: nat)
    requires Inv(s) && Enabled(s, Forward(a))
    ensures PassesUp(s, Next(s, Forward(a)), a)
  {
    assert Linked(s, a);
    ForwardedForwards(s, a);
  }

  lemma CallIs(s: State, r: Request)
    requires Slotted(s) && r.parent.None?
    ensures Called(s, OpenFor(s, r), r)
  {
    OpenEnters(s, s, r);
    OpenFrames(s, r);
    OpenGrows(s, r.address, r.isBle, r.signal, r.tryCount, r.parent, r.peripheral);
    assert OpenFor(s, r).closed == s.closed;
  }

  lemma EarlyEffect(s: State, e: Event)
    requires Inv(s) && Enabled(s, e) && Early(e)
    ensures Effect(s, Next(s, e), e) && OtherGuards(s, Next(s, e), e.a)
  {
    match e
    case AbortFires(a) => GivingUp(s, e, Aborted);
    case ConnectTimeout(a) => GivingUp(s, e, ConnectTimedOut);
    case DisconnectTimeout(a) => GivingUp(s, e, DisconnectTimedOut);
    case InterviewTimeout(a) => GivingUp(s, e, InterviewTimedOut);
    case ConnectSucceeds(a) => ConnectInterviews(s, a);
    case ConnectFails(a, found) => ConnectErrorRetried(s, a, found);
    case ConnectRejects(a, found) => ConnectRejectionRetried(s, a, found);
    case Disconnects(a, found) => RetryIsRetried(s, a, found);
    case InterviewResumes(a, result) => InterviewResumed(s, a, result);
  }

  lemma LateEffect(s: State, e: Event)
    requires Inv(s) && Enabled(s, e) && Actor(e).Some? && !e.Forward? && !Early(e)
    ensures Effect(s, Next(s, e), e) && OtherGuards(s, Next(s, e), e.a)
  {
    match e
    case CreateReturns(a) => HandshakeDelivers(s, a);
    case CreateThrows(a, linked, found) => LinkFails(s, a, linked, found);
    case DiscardReturns(a) => ReturnIs(s, a);
    case DiscardThrows(a, linked, found) => LinkFails(s, a, linked, found);
    case UnlinkReturns(a, found) => RetryAndReturnIsRetried(s, a, found);
    case LinkDrops(a) =>
  }

  lemma ActorPromise(s: State, e: Event)
    requires Inv(s) && Enabled(s, e) && Actor(e).Some? && !e.Forward?
    ensures Promise(s, Next(s, e), e)
  {
    if Early(e) {
      EarlyEffect(s, e);
    } else {
      LateEffect(s, e);
    }
    ActorLeaves(s, e);
    StepKeepsInv(s, e);
    assert Local(Next(s, e), e.a);
  }

  lemma ForwardPromise(s: State, e: Event)
    requires Inv(s) && Enabled(s, e) && e.Forward?
    ensures Promise(s, Next(s, e), e)
  {
    ForwardPassesUp(s, e.a);
  }

  lemma CallPromise(s: State, e: Event)
    requires Inv(s) && Enabled(s, e) && Actor(e).None?
    ensures Promise(s, Next(s, e), e)
  {
    if e.OpenChannel? {
      CallIs(s, Request(e.address, e.isBle, e.signal, 1, None, e.peripheral));
    }
  }

  /** In every run, every step keeps the promise made for it. */
  lemma StepPromise(events: seq<Event>, e: Event)
    requires IsRun(INITIAL, events) && Enabled(Run(INITIAL, events), e)
    ensures Promise(Run(INITIAL, events), Next(Run(INITIAL, events), e), e)
  {
    RunKeepsInv(INITIAL, events);
    if e.Forward? {
      ForwardPromise(Run(INITIAL, events), e);
    } else if Actor(e).Some? {
      ActorPromise(Run(INITIAL, events), e);
    } else {
      CallPromise(Run(INITIAL, events), e);
    }
  }

  /** The events that retry attempt `a`, with what the retry finds of the peripheral. */
  predicate RetriesWith(s: State, e: Event, found: Peripheral)
    requires Actor(e).Some?
  {
    match e
    case ConnectFails(a, p) => a in s.guards && p == found
    case ConnectRejects(a, p) => a in s.guards && p == found
    case Disconnects(_, p) => p == found
    case InterviewResumes(a, result) => a in s.guards && result == Failed(found)
    case CreateThrows(_, linked, p) => !linked && p == found
    case DiscardThrows(_, linked, p) => !linked && p == found
    case UnlinkReturns(_, p) => p == found
    case _ => false
  }

  /** A retry is for the same address and caller, and starts exactly when nothing the caller can see is in its way. */
  ghost predicate StartsRetryIff(s: State, s': State, a: nat, found: Peripheral) {
    && s.Has(a) && |s'.attempts| == |s.attempts| + 1
    && var o, n := s.attempts[a], s'.attempts[|s.attempts|];
    && n.address == o.address && n.signal == o.signal && n.caller == o.caller && n.parent == Some(a)
    && n.Entry() == o.tryCount + 1
    && (n.started <==>
          && !s.closed && s.listening && !s.IsAborted(o.signal) && o.tryCount < 3 && found.Found?
          && o.address !in s'.openChannels && forall i: nat :: i != a ==> !Owns(s, i, o.address))
  }

  /** Whatever makes an attempt fail, its retry is started under exactly these conditions. */
  lemma RetryStartsIff(events: seq<Event>, e: Event, found: Peripheral)
    requires IsRun(INITIAL, events) && Enabled(Run(INITIAL, events), e)
    requires Actor(e).Some? && RetriesWith(Run(INITIAL, events), e, found)
    ensures StartsRetryIff(Run(INITIAL, events), Next(Run(INITIAL, events), e), e.a, found)
  {
    StepPromise(events, e);
    var s, s' := Run(INITIAL, events), Next(Run(INITIAL, events), e);
    RetriedStarts(s, s', e.a, found);
  }

  lemma RetriedStarts(s: State, s': State, a: nat, found: Peripheral)
    requires Retried(s, s', a, found)
    ensures StartsRetryIff(s, s', a, found)
  {
    var r, open := RetryOf(s, a, found), s'.openChannels;
    assert Free(s, open, r) <==>
           && !Reason(s, open, r, ENTRY_CHECKS[0]) && !Reason(s, open, r, ENTRY_CHECKS[1])
           && !Reason(s, open, r, ENTRY_CHECKS[2]) && !Reason(s, open, r, ENTRY_CHECKS[3])
           && !Reason(s, open, r, ENTRY_CHECKS[4]) && !Reason(s, open, r, ENTRY_CHECKS[5])
           && !Reason(s, open, r, ENTRY_CHECKS[6]) && !Reason(s, open, r, ENTRY_CHECKS[7]);
  }
}
