/**
 `NobleBleCentralInterface` itself: the fields the source keeps, and its closures as methods that update them in place.
 Every method is proved to take the step of the same name in `BleCentral`, so what `BleCentralRuns` proves of all runs
 holds of every sequence of calls on the object.
 */
module BleCentralInterface {
  import opened Options
  import opened BleCentral
  import opened BleCentralSafety
  import opened BleCentralRuns
  import opened BleCentralPromises

  lemma {:induction false} RunSnoc(s: State, run: seq<Event>, e: Event)
    requires IsRun(s, run) && Enabled(Run(s, run), e)
    ensures IsRun(s, run + [e]) && Run(s, run + [e]) == Next(Run(s, run), e)
    decreases |run|
  {
    if run == [] {
      assert run + [e] == [e] && [e][1..] == [];
    } else {
      assert (run + [e])[1..] == run[1..] + [e];
      RunSnoc(Next(s, run[0]), run[1..], e);
    }
  }

  class NobleBleCentralInterface {
    var connectionsInProgress: set<Address>
    var connectionGuards: set<nat>
    var openChannels: set<Address>
    var closed: bool
    var listening: bool
    var aborted: set<Signal>
    var attempts: seq<Attempt>
    var channels: seq<nat>
    var discarded: set<nat>
    ghost var history: seq<Event>

    function View(): State
      reads this
    {
      State(connectionsInProgress, connectionGuards, openChannels, closed, listening, aborted, attempts, channels,
            discarded)
    }

    /** The object is in a state that a run reaches. */
    ghost predicate Valid()
      reads this
    {
      IsRun(INITIAL, history) && View() == Run(INITIAL, history)
    }

    ghost method Record(e: Event)
      requires IsRun(INITIAL, history) && Enabled(Run(INITIAL, history), e)
      requires View() == Next(Run(INITIAL, history), e)
      modifies this`history
      ensures Valid() && history == old(history) + [e]
      ensures Promise(Run(INITIAL, old(history)), View(), e)
    {
      StepPromise(history, e);
      RunSnoc(INITIAL, history, e);
      history := history + [e];
    }

    /** So what holds of all runs holds of the object: for one, an address is reserved exactly when owned. */
    lemma ReservedMeansOwned(x: Address)
      requires Valid()
      ensures x in connectionsInProgress <==> exists i :: 0 <= i < |attempts| && Owns(View(), i, x)
    {
      ReservedIffOwned(history, x);
    }

    constructor ()
      ensures Valid() && history == []
    {
      connectionsInProgress, connectionGuards, openChannels := {}, {}, {};
      closed, listening, aborted := false, false, {};
      attempts, channels, discarded, history := [], [], {}, [];
    }

    // ---- The closures of one attempt ---------------------------------------------------------------------------

    method Release(a: nat)
      requires a < |attempts|
      modifies this
      ensures View() == ReleaseSlot(old(View()), a)
      ensures history == old(history)
    {
      if attempts[a].ownsSlot {
        connectionsInProgress := connectionsInProgress - {attempts[a].address};
        attempts := attempts[a := attempts[a].(ownsSlot := false)];
      }
    }

    method ClearConnectionGuard(a: nat)
      requires a < |attempts|
      modifies this
      ensures View() == ClearGuard(old(View()), a)
      ensures history == old(history)
    {
      attempts := attempts[a := attempts[a].(connectTimer := false, interviewTimer := false,
                                             disconnectTimer := false, onAbort := false)];
      connectionGuards := connectionGuards - {a};
    }

    method RemoveListeners(a: nat, toConnect: bool)
      requires a < |attempts|
      modifies this
      ensures View() == StopListening(old(View()), a, toConnect)
      ensures history == old(history)
    {
      attempts := attempts[a := attempts[a].(onDisconnect := false, onConnect := attempts[a].onConnect && !toConnect)];
    }

    method SetPhase(a: nat, phase: Phase)
      requires a < |attempts|
      modifies this
      ensures View() == Enter(old(View()), a, phase)
      ensures history == old(history)
    {
      attempts := attempts[a := attempts[a].(phase := phase)];
    }

    method SettleOnce(a: nat, outcome: Outcome) returns (settled: bool)
      requires a < |attempts|
      modifies this
      ensures View() == Settle(old(View()), a, outcome)
      ensures history == old(history)
      ensures settled == !old(attempts[a].Settled())
    {
      settled := attempts[a].outcome.Pending?;
      if settled {
        attempts := attempts[a := attempts[a].(outcome := outcome)];
      }
    }

    /** The body shared by the three timeouts and the abort listener. */
    method Fail(a: nat, toConnect: bool, error: Error)
      requires a < |attempts|
      modifies this
      ensures View() == GiveUp(old(View()), a, toConnect, error)
      ensures history == old(history)
    {
      RemoveListeners(a, toConnect);
      ClearConnectionGuard(a);
      Release(a);
      var _ := SettleOnce(a, Rejected(error));
    }

    method ReTryHandler(a: nat, peripheral: Peripheral)
      requires a < |attempts|
      modifies this
      ensures View() == Retry(old(View()), a, peripheral)
      ensures history == old(history)
      ensures |attempts| == |old(attempts)| + 1
    {
      ClearConnectionGuard(a);
      Release(a);
      RemoveListeners(a, true);
      var _ := StartAttempt(attempts[a].address, true, attempts[a].signal, attempts[a].tryCount + 1, Some(a),
                            peripheral);
    }

    /** `#openChannel`: the entry checks, the reservation, and what the peripheral's state asks for. */
    method StartAttempt(address: Address, isBle: bool, signal: Option<Signal>, tryCount: int, parent: Option<nat>,
                    peripheral: Peripheral) returns (id: nat)
      requires ParentOk(View(), parent)
      modifies this
      ensures View() == Open(old(View()), address, isBle, signal, tryCount, parent, peripheral)
      ensures history == old(history)
      ensures id == |old(attempts)| && |attempts| == id + 1
    {
      id := |attempts|;
      var refusal := Refusal(View(), address, isBle, signal, tryCount, peripheral);
      var caller := id;
      if parent.Some? {
        caller := attempts[parent.value].caller;
        attempts := attempts[parent.value := attempts[parent.value].(child := Some(id))];
      }
      if refusal.Some? {
        attempts := attempts + [Refused(caller, parent, address, signal, tryCount, refusal.value)];
        return;
      }
      connectionsInProgress := connectionsInProgress + {address};
      connectionGuards := connectionGuards + {id};
      var attempt := Attempt(caller, parent, None, true, false, address, signal, tryCount, false, Pending,
                             true, false, false, false, false, false, signal.Some?, false, false, Waiting);
      if peripheral.state.Connected? {
        attempt := attempt.(interviewTimer := true, phase := Interview);
      } else if peripheral.state.Disconnecting? {
        attempt := attempt.(foundDisconnecting := true, tryCount := tryCount - 1, disconnectTimer := true,
                            onDisconnect := true);
      } else {
        attempt := attempt.(connectTimer := true, onConnect := true, onDisconnect := true, connecting := true);
      }
      attempts := attempts + [attempt];
    }

    // ---- Calls and callbacks -----------------------------------------------------------------------------------

    method CallOnData()
      requires Valid()
      modifies this
      ensures Valid() && history == old(history) + [OnData]
      ensures View() == old(View()).(listening := true)
    {
      listening := true;
      Record(OnData);
    }

    method CallOpenChannel(address: Address, isBle: bool, signal: Option<Signal>, peripheral: Peripheral)
      returns (id: nat)
      requires Valid()
      modifies this
      ensures Valid() && history == old(history) + [OpenChannel(address, isBle, signal, peripheral)]
      ensures Called(old(View()), View(), Request(address, isBle, signal, 1, None, peripheral))
      ensures AcceptsIff(old(View()), View(), address, isBle, signal, peripheral)
      ensures id == |old(attempts)|
    {
      id := StartAttempt(address, isBle, signal, 1, None, peripheral);
      AcceptedIff(history, OpenChannel(address, isBle, signal, peripheral));
      Record(OpenChannel(address, isBle, signal, peripheral));
    }

    method CallClose()
      requires Valid()
      modifies this
      ensures Valid() && history == old(history) + [Close]
      ensures View() == old(View()).(closed := true, openChannels := {})
    {
      closed := true;
      openChannels := {};
      Record(Close);
    }

    method SignalAborts(signal: Signal)
      requires Valid()
      modifies this
      ensures Valid() && history == old(history) + [Abort(signal)]
      ensures View() == old(View()).(aborted := old(aborted) + {signal})
    {
      aborted := aborted + {signal};
      Record(Abort(signal));
    }

    method OnAbort(a: nat)
      requires Valid() && Enabled(View(), AbortFires(a))
      modifies this
      ensures Valid() && history == old(history) + [AbortFires(a)]
      ensures Handled(old(View()), View(), a) && GivenUp(old(View()), View(), a, Aborted)
    {
      Fail(a, true, Aborted);
      Record(AbortFires(a));
    }

    method OnConnectTimeout(a: nat)
      requires Valid() && Enabled(View(), ConnectTimeout(a))
      modifies this
      ensures Valid() && history == old(history) + [ConnectTimeout(a)]
      ensures Handled(old(View()), View(), a) && GivenUp(old(View()), View(), a, ConnectTimedOut)
    {
      Fail(a, true, ConnectTimedOut);
      Record(ConnectTimeout(a));
    }

    method OnDisconnectTimeout(a: nat)
      requires Valid() && Enabled(View(), DisconnectTimeout(a))
      modifies this
      ensures Valid() && history == old(history) + [DisconnectTimeout(a)]
      ensures Handled(old(View()), View(), a) && GivenUp(old(View()), View(), a, DisconnectTimedOut)
    {
      Fail(a, false, DisconnectTimedOut);
      Record(DisconnectTimeout(a));
    }

    method OnInterviewTimeout(a: nat)
      requires Valid() && Enabled(View(), InterviewTimeout(a))
      modifies this
      ensures Valid() && history == old(history) + [InterviewTimeout(a)]
      ensures Handled(old(View()), View(), a) && GivenUp(old(View()), View(), a, InterviewTimedOut)
    {
      Fail(a, false, InterviewTimedOut);
      Record(InterviewTimeout(a));
    }

    /** `connectHandler` up to its first await. */
    method OnConnect(a: nat)
      requires Valid() && Enabled(View(), ConnectSucceeds(a))
      modifies this
      ensures Valid() && history == old(history) + [ConnectSucceeds(a)]
      ensures Handled(old(View()), View(), a) && Interviews(old(View()), View(), a)
    {
      attempts := attempts[a := attempts[a].(onConnect := false, connectTimer := false, connecting := false)];
      if a !in connectionGuards {
        SetPhase(a, Finished);
      } else if !listening {
        SetPhase(a, Finished);
        Fail(a, false, ListenerCleared);
      } else {
        attempts := attempts[a := attempts[a].(interviewTimer := true, phase := Interview)];
      }
      Record(ConnectSucceeds(a));
    }

    method OnConnectError(a: nat, peripheral: Peripheral)
      requires Valid() && Enabled(View(), ConnectFails(a, peripheral))
      modifies this
      ensures Valid() && history == old(history) + [ConnectFails(a, peripheral)]
      ensures Handled(old(View()), View(), a) && RetriedIfGuarded(old(View()), View(), a, peripheral)
    {
      attempts := attempts[a := attempts[a].(onConnect := false, connectTimer := false, phase := Finished)];
      if a in connectionGuards {
        ReTryHandler(a, peripheral);
      }
      Record(ConnectFails(a, peripheral));
    }

    method OnConnectAsyncRejected(a: nat, peripheral: Peripheral)
      requires Valid() && Enabled(View(), ConnectRejects(a, peripheral))
      modifies this
      ensures Valid() && history == old(history) + [ConnectRejects(a, peripheral)]
      ensures Handled(old(View()), View(), a) && RetriedIfGuarded(old(View()), View(), a, peripheral)
    {
      attempts := attempts[a := attempts[a].(connecting := false)];
      if a in connectionGuards {
        ReTryHandler(a, peripheral);
      }
      Record(ConnectRejects(a, peripheral));
    }

    method OnDisconnect(a: nat, peripheral: Peripheral)
      requires Valid() && Enabled(View(), Disconnects(a, peripheral))
      modifies this
      ensures Valid() && history == old(history) + [Disconnects(a, peripheral)]
      ensures Handled(old(View()), View(), a) && Retried(old(View()), View(), a, peripheral)
      ensures StartsRetryIff(old(View()), View(), a, peripheral)
    {
      ReTryHandler(a, peripheral);
      RetryStartsIff(history, Disconnects(a, peripheral), peripheral);
      Record(Disconnects(a, peripheral));
    }

    /** A retry from within `connectHandler`, and then that handler's `finally`. */
    method RetryThenFinally(a: nat, peripheral: Peripheral)
      requires a < |attempts|
      modifies this
      ensures View() == RetryAndReturn(old(View()), a, peripheral)
      ensures history == old(history)
    {
      SetPhase(a, Finished);
      ReTryHandler(a, peripheral);
      ClearConnectionGuard(a);
      Release(a);
    }

    method OnInterviewResumed(a: nat, result: InterviewResult)
      requires Valid() && Enabled(View(), InterviewResumes(a, result))
      modifies this
      ensures Valid() && history == old(history) + [InterviewResumes(a, result)]
      ensures Handled(old(View()), View(), a) && Resumed(old(View()), View(), a, result)
    {
      if a !in connectionGuards {
        SetPhase(a, Finished);
        ClearConnectionGuard(a);
        Release(a);
      } else {
        match result {
          case MoreToRead =>
          case Failed(peripheral) => RetryThenFinally(a, peripheral);
          case NoMatch =>
            SetPhase(a, Finished);
            Fail(a, false, MissingCharacteristics);
          case Match =>
            openChannels := openChannels + {attempts[a].address};
            attempts := attempts[a := attempts[a].(interviewTimer := false, onDisconnect := false, onDrop := true,
                                                   phase := Handshake)];
        }
      }
      Record(InterviewResumes(a, result));
    }

    /** `resolveOnce(channel)`, and the start of `channel.close()` when the promise does not take the channel. */
    method HandChannelOver(a: nat)
      requires a < |attempts|
      modifies this
      ensures View() == HandOver(old(View()), a)
      ensures history == old(history)
    {
      var k := |channels|;
      channels := channels + [a];
      var resolved := SettleOnce(a, Resolved(k));
      if resolved {
        SetPhase(a, Finished);
      } else {
        discarded := discarded + {k};
        SetPhase(a, Discarding);
      }
    }

    method OnCreated(a: nat)
      requires Valid() && Enabled(View(), CreateReturns(a))
      modifies this
      ensures Valid() && history == old(history) + [CreateReturns(a)]
      ensures Handled(old(View()), View(), a) && Delivers(old(View()), View(), a)
    {
      ClearConnectionGuard(a);
      Release(a);
      HandChannelOver(a);
      Record(CreateReturns(a));
    }

    /** The inner `catch`, reached from a failed handshake and from a failed `channel.close()`. */
    method CatchLinkError(a: nat, linked: bool, peripheral: Peripheral)
      requires a < |attempts|
      modifies this
      ensures View() == FailLink(old(View()), a, linked, peripheral)
      ensures history == old(history)
    {
      openChannels := openChannels - {attempts[a].address};
      Release(a);
      if linked {
        SetPhase(a, Unlinking);
      } else {
        RetryThenFinally(a, peripheral);
      }
    }

    method OnCreateFailed(a: nat, linked: bool, peripheral: Peripheral)
      requires Valid() && Enabled(View(), CreateThrows(a, linked, peripheral))
      modifies this
      ensures Valid() && history == old(history) + [CreateThrows(a, linked, peripheral)]
      ensures Handled(old(View()), View(), a) && LinkFailed(old(View()), View(), a, linked, peripheral)
    {
      CatchLinkError(a, linked, peripheral);
      Record(CreateThrows(a, linked, peripheral));
    }

    method OnDiscarded(a: nat)
      requires Valid() && Enabled(View(), DiscardReturns(a))
      modifies this
      ensures Valid() && history == old(history) + [DiscardReturns(a)]
      ensures Handled(old(View()), View(), a) && Returned(old(View()), View(), a)
    {
      SetPhase(a, Finished);
      ClearConnectionGuard(a);
      Release(a);
      Record(DiscardReturns(a));
    }

    method OnDiscardFailed(a: nat, linked: bool, peripheral: Peripheral)
      requires Valid() && Enabled(View(), DiscardThrows(a, linked, peripheral))
      modifies this
      ensures Valid() && history == old(history) + [DiscardThrows(a, linked, peripheral)]
      ensures Handled(old(View()), View(), a) && LinkFailed(old(View()), View(), a, linked, peripheral)
    {
      CatchLinkError(a, linked, peripheral);
      Record(DiscardThrows(a, linked, peripheral));
    }

    method OnUnlinked(a: nat, peripheral: Peripheral)
      requires Valid() && Enabled(View(), UnlinkReturns(a, peripheral))
      modifies this
      ensures Valid() && history == old(history) + [UnlinkReturns(a, peripheral)]
      ensures Handled(old(View()), View(), a) && Retried(old(View()), View(), a, peripheral)
      ensures StartsRetryIff(old(View()), View(), a, peripheral)
    {
      RetryThenFinally(a, peripheral);
      RetryStartsIff(history, UnlinkReturns(a, peripheral), peripheral);
      Record(UnlinkReturns(a, peripheral));
    }

    method OnLinkDropped(a: nat)
      requires Valid() && Enabled(View(), LinkDrops(a))
      modifies this
      ensures Valid() && history == old(history) + [LinkDrops(a)]
      ensures Dropped(old(View()), View(), a)
    {
      openChannels := openChannels - {attempts[a].address};
      attempts := attempts[a := attempts[a].(onDrop := false)];
      Record(LinkDrops(a));
    }

    /** `.then(resolveOnce).catch(rejectOnce)` of the attempt that started this one. */
    method OnRetrySettled(a: nat)
      requires Valid() && Enabled(View(), Forward(a))
      modifies this
      ensures Valid() && history == old(history) + [Forward(a)]
      ensures PassesUp(old(View()), View(), a)
    {
      var outcome, parent := attempts[a].outcome, attempts[a].parent.value;
      attempts := attempts[a := attempts[a].(forwarded := true)];
      var _ := SettleOnce(parent, outcome);
      Record(Forward(a));
    }
  }
}
