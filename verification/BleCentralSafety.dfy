module BleCentralSafety {
  import opened Options
  import opened BleCentral

  predicate Owned(s: State, x: Address) {
    exists i :: 0 <= i < |s.attempts| && s.attempts[i].ownsSlot && s.attempts[i].address == x
  }

  /** The reservations are the addresses of the attempts that own a slot, and no two attempts own the same one. */
  predicate SlotsOwned(s: State) {
    && (forall i :: 0 <= i < |s.attempts| && s.attempts[i].ownsSlot ==> s.attempts[i].address in s.inProgress)
    && (forall x :: x in s.inProgress ==> Owned(s, x))
    && (forall i, j :: 0 <= i < j < |s.attempts| && s.attempts[i].ownsSlot && s.attempts[j].ownsSlot ==>
          s.attempts[i].address != s.attempts[j].address)
  }

  /** What the code of one attempt keeps true of its own captured state. */
  predicate Local(s: State, i: nat)
    requires s.Has(i)
  {
    var a := s.attempts[i];
    && (a.Settled() || a.child.Some? ==> !a.ownsSlot && i !in s.guards)
    && (i !in s.guards ==> !a.Timed() && !a.onAbort)
    && (a.child.Some? ==> !a.onConnect && !a.onDisconnect && !a.Committed())
    && (a.onConnect ==> a.phase.Waiting? && !a.disconnectTimer && !a.interviewTimer)
    && (a.connecting || a.connectTimer || a.disconnectTimer ==> a.phase.Waiting? || a.phase.Finished?)
    && (a.Committed() ==> !a.Timed())
    && (a.Committed() || a.Settled() ==> !a.onDisconnect)
    && (a.Committed() && a.Settled() ==> s.IsAborted(a.signal))
    && (a.phase.Discarding? ==> a.Settled())
    && (!a.started ==> a.outcome.Rejected? && a.phase.Finished? && !a.onConnect && !a.onDisconnect && !a.connecting)
    && (a.started ==> a.Entry() <= 3)
    && (a.outcome.Resolved? ==> a.outcome.channel < |s.channels| && a.outcome.channel !in s.discarded)
  }

  predicate Linked(s: State, i: nat)
    requires s.Has(i)
  {
    var a := s.attempts[i];
    && (a.parent.None? ==> a.caller == i && !a.forwarded)
    && (a.parent.Some? ==>
          var p := a.parent.value;
          && p < i
          && s.attempts[p].child == Some(i)
          && s.attempts[p].caller == a.caller
          && (a.forwarded ==> a.Settled() && s.attempts[p].Settled() &&
                              (a.outcome.Resolved? ==> s.attempts[p].outcome == a.outcome))
          && (!a.forwarded ==> s.attempts[p].outcome.Pending? || a.outcome.Rejected?))
    && (a.child.Some? ==> i < a.child.value < |s.attempts| && s.attempts[a.child.value].parent == Some(i))
    && a.caller <= i
    && 0 <= a.tryCount && 1 <= a.Entry()
  }

  /** An earlier attempt of the same call has been retried, and every later one was started with a higher try. */
  predicate Ordered(s: State) {
    forall i, j :: 0 <= i < j < |s.attempts| && s.attempts[i].caller == s.attempts[j].caller ==>
      s.attempts[i].child.Some? && s.attempts[i].tryCount + 1 <= s.attempts[j].Entry()
  }

  predicate ChannelsHeld(s: State) {
    && (forall k :: 0 <= k < |s.channels| ==>
          && s.channels[k] < |s.attempts|
          && (k in s.discarded || s.attempts[s.channels[k]].outcome == Resolved(k)))
    && (forall k :: k in s.discarded ==> k < |s.channels|)
    && (forall i :: 0 <= i < |s.attempts| && s.attempts[i].outcome.Resolved? ==> SameCall(s, i))
  }

  /** A promise only resolves with a channel made by an attempt that serves the same call. */
  predicate SameCall(s: State, i: nat)
    requires s.Has(i) && s.attempts[i].outcome.Resolved?
  {
    var k := s.attempts[i].outcome.channel;
    k < |s.channels| && s.channels[k] < |s.attempts| && s.attempts[s.channels[k]].caller == s.attempts[i].caller
  }

  predicate AllLocal(s: State) { forall i :: 0 <= i < |s.attempts| ==> Local(s, i) }

  predicate AllLinked(s: State) { forall i :: 0 <= i < |s.attempts| ==> Linked(s, i) }

  predicate GuardsExist(s: State) { forall i :: i in s.guards ==> i < |s.attempts| }

  predicate Inv(s: State) {
    SlotsOwned(s) && AllLocal(s) && AllLinked(s) && GuardsExist(s) && Ordered(s) && ChannelsHeld(s)
  }

  // ---- One attempt changes -------------------------------------------------------------------------------------

  /** `s'` differs from `s` in attempt `a`, its guard and its slot only, and the retry chain is the same. */
  predicate Touches(s: State, s': State, a: nat) {
    && s.Has(a) && |s'.attempts| == |s.attempts|
    && (forall i :: 0 <= i < |s.attempts| && i != a ==> s'.attempts[i] == s.attempts[i])
    && (s'.guards == s.guards || s'.guards == s.guards - {a})
    && s'.aborted == s.aborted
    && var o, n := s.attempts[a], s'.attempts[a];
    && n.caller == o.caller && n.parent == o.parent && n.child == o.child && n.forwarded == o.forwarded
    && n.started == o.started && n.address == o.address && n.signal == o.signal && n.tryCount == o.tryCount
    && n.foundDisconnecting == o.foundDisconnecting
  }

  lemma TouchKeepsLocal(s: State, s': State, a: nat)
    requires AllLocal(s) && Touches(s, s', a) && Local(s', a)
    requires |s.channels| <= |s'.channels|
    requires forall k :: 0 <= k < |s.channels| ==> (k in s'.discarded <==> k in s.discarded)
    ensures AllLocal(s')
  {
    forall i | 0 <= i < |s'.attempts| ensures Local(s', i) {
      assert Local(s, i);
    }
  }

  lemma TouchKeepsOrdered(s: State, s': State, a: nat)
    requires Ordered(s) && Touches(s, s', a)
    ensures Ordered(s')
  {
    forall i, j | 0 <= i < j < |s'.attempts| && s'.attempts[i].caller == s'.attempts[j].caller
      ensures s'.attempts[i].child.Some? && s'.attempts[i].tryCount + 1 <= s'.attempts[j].Entry()
    {
      assert s.attempts[i].caller == s.attempts[j].caller;
    }
  }

  lemma TouchKeepsLinked(s: State, s': State, a: nat)
    requires AllLinked(s) && Touches(s, s', a)
    requires s'.attempts[a].outcome == s.attempts[a].outcome
             || (s.attempts[a].child.None? && s.attempts[a].outcome.Pending?)
    ensures AllLinked(s')
  {
    forall i | 0 <= i < |s'.attempts| ensures Linked(s', i) {
      assert Linked(s, i);
    }
  }

  lemma TouchKeepsSlots(s: State, s': State, a: nat)
    requires SlotsOwned(s) && Touches(s, s', a)
    requires if s'.attempts[a].ownsSlot == s.attempts[a].ownsSlot then s'.inProgress == s.inProgress
             else s.attempts[a].ownsSlot && s'.inProgress == s.inProgress - {s.attempts[a].address}
    ensures SlotsOwned(s')
  {
    forall x | x in s'.inProgress ensures Owned(s', x) {
      assert Owned(s, x);
      var i :| 0 <= i < |s.attempts| && s.attempts[i].ownsSlot && s.attempts[i].address == x;
      assert s'.attempts[i].ownsSlot && s'.attempts[i].address == x;
    }
  }

  lemma TouchKeepsChannels(s: State, s': State, a: nat)
    requires ChannelsHeld(s) && Touches(s, s', a) && s'.channels == s.channels && s'.discarded == s.discarded
    requires s'.attempts[a].outcome == s.attempts[a].outcome
             || (s.attempts[a].outcome.Pending? && s'.attempts[a].outcome.Rejected?)
    ensures ChannelsHeld(s')
  {
    forall i | 0 <= i < |s'.attempts| && s'.attempts[i].outcome.Resolved? ensures SameCall(s', i) {
      assert SameCall(s, i);
    }
  }

  /** A step that touches only private state of attempt `a` keeps the invariant if `a` itself stays well-formed. */
  lemma QuietKeepsInv(s: State, s': State, a: nat)
    requires Inv(s) && Touches(s, s', a)
    requires s'.attempts[a].outcome == s.attempts[a].outcome && s'.attempts[a].ownsSlot == s.attempts[a].ownsSlot
    requires s'.inProgress == s.inProgress && s'.channels == s.channels && s'.discarded == s.discarded
    requires Local(s', a)
    ensures Inv(s')
  {
    TouchKeepsLocal(s, s', a);
    TouchKeepsOrdered(s, s', a);
    TouchKeepsLinked(s, s', a);
    TouchKeepsSlots(s, s', a);
    TouchKeepsChannels(s, s', a);
  }

  lemma ReleaseKeepsInv(s: State, a: nat)
    requires Inv(s) && s.Has(a)
    ensures Inv(ReleaseSlot(s, a))
  {
    var s' := ReleaseSlot(s, a);
    assert Local(s, a);
    TouchKeepsLocal(s, s', a);
    TouchKeepsOrdered(s, s', a);
    TouchKeepsLinked(s, s', a);
    TouchKeepsSlots(s, s', a);
    TouchKeepsChannels(s, s', a);
  }

  lemma ClearKeepsInv(s: State, a: nat)
    requires Inv(s) && s.Has(a)
    ensures Inv(ClearGuard(s, a))
  {
    assert Local(s, a);
    QuietKeepsInv(s, ClearGuard(s, a), a);
  }

  lemma AbandonKeepsInv(s: State, a: nat)
    requires Inv(s) && s.Has(a)
    ensures Inv(Abandon(s, a))
  {
    ClearKeepsInv(s, a);
    ReleaseKeepsInv(ClearGuard(s, a), a);
  }

  lemma StopKeepsInv(s: State, a: nat, toConnect: bool)
    requires Inv(s) && s.Has(a)
    ensures Inv(StopListening(s, a, toConnect))
  {
    assert Local(s, a);
    QuietKeepsInv(s, StopListening(s, a, toConnect), a);
  }

  /** An attempt that has let go of slot, guard and retry listener, and was not handed over, may settle. */
  lemma SettleKeepsInv(s: State, a: nat, outcome: Outcome)
    requires Inv(s) && s.Has(a) && outcome.Rejected?
    requires !s.attempts[a].ownsSlot && a !in s.guards && !s.attempts[a].onDisconnect
    requires s.attempts[a].child.None?
    requires s.attempts[a].Committed() ==> s.IsAborted(s.attempts[a].signal)
    ensures Inv(Settle(s, a, outcome))
  {
    var s' := Settle(s, a, outcome);
    if !s.attempts[a].Settled() {
      assert Local(s', a) by { assert Local(s, a); }
      TouchKeepsLocal(s, s', a);
      TouchKeepsOrdered(s, s', a);
      TouchKeepsLinked(s, s', a);
      TouchKeepsSlots(s, s', a);
      TouchKeepsChannels(s, s', a);
    }
  }

  // ---- An attempt is added -------------------------------------------------------------------------------------

  /** When `#openChannel` may be entered: by a caller, or by an attempt that has let go and not been retried yet. */
  predicate MayOpen(s: State, address: Address, signal: Option<Signal>, tryCount: int, parent: Option<nat>) {
    if parent.None? then tryCount == 1
    else
      && s.Has(parent.value)
      && var p := s.attempts[parent.value];
      && p.child.None? && !p.ownsSlot && parent.value !in s.guards && !p.onConnect && !p.onDisconnect
      && !p.Committed() && (p.Settled() ==> s.IsAborted(signal))
      && address == p.address && signal == p.signal && tryCount == p.tryCount + 1
  }

  /** The effect of `#openChannel` on the attempts and the shared sets, whatever branch it takes. */
  predicate Grows(s: State, s': State, address: Address, signal: Option<Signal>, tryCount: int, parent: Option<nat>) {
    var n := |s.attempts|;
    && |s'.attempts| == n + 1
    && (forall i :: 0 <= i < n && parent != Some(i) ==> s'.attempts[i] == s.attempts[i])
    && (parent.Some? ==>
          parent.value < n && s'.attempts[parent.value] == s.attempts[parent.value].(child := Some(n)))
    && s'.channels == s.channels && s'.discarded == s.discarded && s'.aborted == s.aborted
    && var a := s'.attempts[n];
    && a.caller == (if parent.Some? then s.attempts[parent.value].caller else n)
    && a.parent == parent && a.child.None? && !a.forwarded && a.address == address && a.signal == signal
    && a.tryCount + 1 >= a.Entry() == tryCount && a.ownsSlot == a.started
    && (if a.started then
          address !in s.inProgress && s'.inProgress == s.inProgress + {address} && s'.guards == s.guards + {n}
        else s'.inProgress == s.inProgress && s'.guards == s.guards)
    && !a.outcome.Resolved? && (s.IsAborted(signal) ==> a.outcome.Rejected?)
  }

  lemma OpenGrows(s: State, address: Address, isBle: bool, signal: Option<Signal>, tryCount: int,
                  parent: Option<nat>, peripheral: Peripheral)
    requires ParentOk(s, parent)
    ensures Grows(s, Open(s, address, isBle, signal, tryCount, parent, peripheral), address, signal, tryCount, parent)
  {
    if Refusal(s, address, isBle, signal, tryCount, peripheral).None? {
      assert !s.IsAborted(signal) && address !in s.inProgress;
    }
  }

  lemma OpenedIsLocal(s: State, address: Address, isBle: bool, signal: Option<Signal>, tryCount: int,
                      parent: Option<nat>, peripheral: Peripheral)
    requires ParentOk(s, parent) && GuardsExist(s)
    ensures var s' := Open(s, address, isBle, signal, tryCount, parent, peripheral);
            |s'.attempts| == |s.attempts| + 1 && Local(s', |s.attempts|)
  {
    var s' := Open(s, address, isBle, signal, tryCount, parent, peripheral);
    var n := |s.attempts|;
    var refusal := Refusal(s, address, isBle, signal, tryCount, peripheral);
    var caller := if parent.Some? then s.attempts[parent.value].caller else n;
    if refusal.Some? {
      assert s'.attempts[n] == Refused(caller, parent, address, signal, tryCount, refusal.value);
    } else {
      assert s'.attempts[n] == Accepted(caller, parent, address, signal, tryCount, peripheral.state);
    }
  }

  lemma GrowthKeepsSlots(s: State, s': State, address: Address, signal: Option<Signal>, tryCount: int,
                         parent: Option<nat>)
    requires SlotsOwned(s) && Grows(s, s', address, signal, tryCount, parent)
    ensures SlotsOwned(s')
  {
    var n := |s.attempts|;
    forall i | 0 <= i < n
      ensures s'.attempts[i].ownsSlot == s.attempts[i].ownsSlot && s'.attempts[i].address == s.attempts[i].address
    {
      assert parent == Some(i) || s'.attempts[i] == s.attempts[i];
    }
    forall x | x in s'.inProgress ensures Owned(s', x) {
      if x in s.inProgress {
        assert Owned(s, x);
        var i :| 0 <= i < n && s.attempts[i].ownsSlot && s.attempts[i].address == x;
        assert s'.attempts[i].ownsSlot && s'.attempts[i].address == x;
      } else {
        assert s'.attempts[n].ownsSlot && s'.attempts[n].address == x;
      }
    }
  }

  lemma GrowthKeepsLocal(s: State, s': State, address: Address, signal: Option<Signal>, tryCount: int,
                         parent: Option<nat>)
    requires AllLocal(s) && MayOpen(s, address, signal, tryCount, parent)
    requires Grows(s, s', address, signal, tryCount, parent) && Local(s', |s.attempts|)
    ensures AllLocal(s')
  {
    forall i | 0 <= i < |s.attempts| ensures Local(s', i) {
      assert Local(s, i);
    }
  }

  lemma GrowthKeepsLinked(s: State, s': State, address: Address, signal: Option<Signal>, tryCount: int,
                          parent: Option<nat>)
    requires AllLinked(s) && MayOpen(s, address, signal, tryCount, parent)
    requires Grows(s, s', address, signal, tryCount, parent)
    ensures AllLinked(s')
  {
    var n := |s.attempts|;
    forall i | 0 <= i < n ensures Linked(s', i) {
      assert Linked(s, i);
    }
    if parent.Some? {
      assert Linked(s, parent.value);
    }
    assert Linked(s', n);
  }

  lemma GrowthKeepsOrdered(s: State, s': State, address: Address, signal: Option<Signal>, tryCount: int,
                           parent: Option<nat>)
    requires AllLinked(s) && Ordered(s) && MayOpen(s, address, signal, tryCount, parent)
    requires Grows(s, s', address, signal, tryCount, parent)
    ensures Ordered(s')
  {
    var n := |s.attempts|;
    forall i, j | 0 <= i < j < |s'.attempts| && s'.attempts[i].caller == s'.attempts[j].caller
      ensures s'.attempts[i].child.Some? && s'.attempts[i].tryCount + 1 <= s'.attempts[j].Entry()
    {
      assert Linked(s, i);
      if j < n {
        assert s.attempts[i].caller == s.attempts[j].caller;
      } else if i != parent.value {
        assert Linked(s, parent.value);
        assert i < parent.value;
      }
    }
  }

  lemma OpenKeepsInv(s: State, address: Address, isBle: bool, signal: Option<Signal>, tryCount: int,
                     parent: Option<nat>, peripheral: Peripheral)
    requires Inv(s) && MayOpen(s, address, signal, tryCount, parent)
    ensures Inv(Open(s, address, isBle, signal, tryCount, parent, peripheral))
  {
    var s' := Open(s, address, isBle, signal, tryCount, parent, peripheral);
    OpenGrows(s, address, isBle, signal, tryCount, parent, peripheral);
    OpenedIsLocal(s, address, isBle, signal, tryCount, parent, peripheral);
    GrowthKeepsSlots(s, s', address, signal, tryCount, parent);
    GrowthKeepsLocal(s, s', address, signal, tryCount, parent);
    GrowthKeepsLinked(s, s', address, signal, tryCount, parent);
    GrowthKeepsOrdered(s, s', address, signal, tryCount, parent);
    GrowthKeepsChannels(s, s', address, signal, tryCount, parent);
  }

  lemma GrowthKeepsChannels(s: State, s': State, address: Address, signal: Option<Signal>, tryCount: int,
                            parent: Option<nat>)
    requires ChannelsHeld(s) && Grows(s, s', address, signal, tryCount, parent)
    ensures ChannelsHeld(s')
  {
    forall i | 0 <= i < |s.attempts|
      ensures s'.attempts[i].outcome == s.attempts[i].outcome && s'.attempts[i].caller == s.attempts[i].caller
    {
      assert parent == Some(i) || s'.attempts[i] == s.attempts[i];
    }
    forall i | 0 <= i < |s'.attempts| && s'.attempts[i].outcome.Resolved? ensures SameCall(s', i) {
      assert SameCall(s, i);
    }
  }

  // ---- The handlers --------------------------------------------------------------------------------------------

  lemma GiveUpKeepsInv(s: State, a: nat, toConnect: bool, error: Error)
    requires Inv(s) && s.Has(a) && s.attempts[a].child.None?
    requires s.attempts[a].Committed() ==> s.IsAborted(s.attempts[a].signal)
    ensures Inv(GiveUp(s, a, toConnect, error))
  {
    var s1 := StopListening(s, a, toConnect);
    StopKeepsInv(s, a, toConnect);
    AbandonKeepsInv(s1, a);
    SettleKeepsInv(Abandon(s1, a), a, Rejected(error));
  }

  lemma RetryKeepsInv(s: State, a: nat, peripheral: Peripheral)
    requires Inv(s) && s.Has(a) && s.attempts[a].child.None? && !s.attempts[a].Committed()
    requires s.attempts[a].Settled() ==> s.IsAborted(s.attempts[a].signal)
    ensures Inv(Retry(s, a, peripheral))
  {
    StoppedKeepsInv(s, a);
    RetryMayOpen(s, a);
    ReopenKeepsInv(StopListening(Abandon(s, a), a, true), a, peripheral);
  }

  predicate MayReopen(s: State, a: nat)
    requires s.Has(a)
  {
    MayOpen(s, s.attempts[a].address, s.attempts[a].signal, s.attempts[a].tryCount + 1, Some(a))
  }

  lemma ReopenKeepsInv(s: State, a: nat, peripheral: Peripheral)
    requires Inv(s) && s.Has(a) && MayReopen(s, a)
    ensures Inv(Reopen(s, a, peripheral))
  {
    var at := s.attempts[a];
    OpenKeepsInv(s, at.address, true, at.signal, at.tryCount + 1, Some(a), peripheral);
  }

  lemma StoppedKeepsInv(s: State, a: nat)
    requires Inv(s) && s.Has(a)
    ensures Inv(StopListening(Abandon(s, a), a, true))
  {
    AbandonKeepsInv(s, a);
    StopKeepsInv(Abandon(s, a), a, true);
  }

  lemma RetryMayOpen(s: State, a: nat)
    requires Inv(s) && s.Has(a) && s.attempts[a].child.None? && !s.attempts[a].Committed()
    requires s.attempts[a].Settled() ==> s.IsAborted(s.attempts[a].signal)
    ensures MayReopen(StopListening(Abandon(s, a), a, true), a)
  {
  }

  lemma EnterKeepsInv(s: State, a: nat, phase: Phase)
    requires Inv(s) && s.Has(a) && Local(Enter(s, a, phase), a)
    ensures Inv(Enter(s, a, phase))
  {
    QuietKeepsInv(s, Enter(s, a, phase), a);
  }

  lemma RetryAndReturnKeepsInv(s: State, a: nat, peripheral: Peripheral)
    requires Inv(s) && s.Has(a) && s.attempts[a].child.None? && !s.attempts[a].onConnect
    requires s.attempts[a].Settled() ==> s.IsAborted(s.attempts[a].signal)
    ensures Inv(RetryAndReturn(s, a, peripheral))
  {
    var s1 := Enter(s, a, Finished);
    assert Local(s, a);
    EnterKeepsInv(s, a, Finished);
    RetryKeepsInv(s1, a, peripheral);
    AbandonKeepsInv(Retry(s1, a, peripheral), a);
  }

  lemma DropChannelKeepsInv(s: State, a: nat)
    requires Inv(s) && s.Has(a)
    ensures Inv(DropChannel(s, a))
  {
    var s0 := s.(openChannels := s.openChannels - {s.attempts[a].address});
    assert Local(s, a);
    QuietKeepsInv(s, s0, a);
    ReleaseKeepsInv(s0, a);
  }

  lemma FailLinkKeepsInv(s: State, a: nat, linked: bool, peripheral: Peripheral)
    requires Inv(s) && s.Has(a) && s.attempts[a].Committed()
    ensures Inv(FailLink(s, a, linked, peripheral))
  {
    DropChannelKeepsInv(s, a);
    var s1 := DropChannel(s, a);
    assert Local(s1, a);
    if linked {
      EnterKeepsInv(s1, a, Unlinking);
    } else {
      RetryAndReturnKeepsInv(s1, a, peripheral);
    }
  }

  lemma BeginInterviewKeepsInv(s: State, a: nat)
    requires Inv(s) && s.Has(a) && s.attempts[a].phase.Waiting? && !s.attempts[a].onConnect
    requires !s.attempts[a].connectTimer && !s.attempts[a].disconnectTimer && !s.attempts[a].connecting
    ensures Inv(BeginInterview(s, a))
  {
    assert Local(s, a);
    if a !in s.guards {
      EnterKeepsInv(s, a, Finished);
    } else if !s.listening {
      EnterKeepsInv(s, a, Finished);
      GiveUpKeepsInv(Enter(s, a, Finished), a, false, ListenerCleared);
    } else {
      QuietKeepsInv(s, BeginInterview(s, a), a);
    }
  }

  lemma ConnectHandledKeepsInv(s: State, a: nat)
    requires Inv(s) && s.Has(a) && s.attempts[a].onConnect
    ensures Inv(ConnectHandled(s, a))
  {
    var s1 := Put(s, a, s.attempts[a].(onConnect := false, connectTimer := false, connecting := false));
    assert Local(s, a);
    QuietKeepsInv(s, s1, a);
    BeginInterviewKeepsInv(s1, a);
  }

  lemma ConnectErrorHandledKeepsInv(s: State, a: nat, peripheral: Peripheral)
    requires Inv(s) && s.Has(a) && s.attempts[a].onConnect
    ensures Inv(ConnectErrorHandled(s, a, peripheral))
  {
    var s1 := Put(s, a, s.attempts[a].(onConnect := false, connectTimer := false, phase := Finished));
    assert Local(s, a);
    QuietKeepsInv(s, s1, a);
    if a in s1.guards {
      assert Local(s1, a);
      RetryKeepsInv(s1, a, peripheral);
    }
  }

  lemma ConnectRejectedKeepsInv(s: State, a: nat, peripheral: Peripheral)
    requires Inv(s) && s.Has(a) && s.attempts[a].connecting
    ensures Inv(ConnectRejected(s, a, peripheral))
  {
    var s1 := Put(s, a, s.attempts[a].(connecting := false));
    assert Local(s, a);
    QuietKeepsInv(s, s1, a);
    if a in s1.guards {
      RetryKeepsInv(s1, a, peripheral);
    }
  }

  lemma InterviewedKeepsInv(s: State, a: nat, result: InterviewResult)
    requires Inv(s) && s.Has(a) && s.attempts[a].phase.Interview?
    ensures Inv(Interviewed(s, a, result))
  {
    assert Local(s, a);
    if a !in s.guards {
      EnterKeepsInv(s, a, Finished);
      AbandonKeepsInv(Enter(s, a, Finished), a);
    } else {
      match result
      case MoreToRead =>
      case Failed(peripheral) => RetryAndReturnKeepsInv(s, a, peripheral);
      case NoMatch =>
        EnterKeepsInv(s, a, Finished);
        GiveUpKeepsInv(Enter(s, a, Finished), a, false, MissingCharacteristics);
      case Match => MatchKeepsInv(s, a);
    }
  }

  lemma MatchKeepsInv(s: State, a: nat)
    requires Inv(s) && s.Has(a) && s.attempts[a].phase.Interview? && a in s.guards
    ensures Inv(Interviewed(s, a, Match))
  {
    assert Local(s, a);
    QuietKeepsInv(s, Interviewed(s, a, Match), a);
  }

  /** A new channel is either handed to the attempt that made it or marked as closed again. */
  lemma HandOverKeepsInv(s: State, a: nat)
    requires Inv(s) && s.Has(a) && s.attempts[a].phase.Handshake?
    requires !s.attempts[a].ownsSlot && a !in s.guards
    ensures Inv(HandOver(s, a))
  {
    var s' := HandOver(s, a);
    assert Local(s, a);
    HandOverTouches(s, a);
    TouchKeepsLocal(s, s', a);
    TouchKeepsOrdered(s, s', a);
    TouchKeepsLinked(s, s', a);
    TouchKeepsSlots(s, s', a);
    HandOverHoldsChannels(s, a);
  }

  lemma HandOverTouches(s: State, a: nat)
    requires s.Has(a) && Local(s, a) && ChannelsHeld(s) && s.attempts[a].phase.Handshake?
    requires !s.attempts[a].ownsSlot && a !in s.guards
    ensures var s' := HandOver(s, a);
            && Touches(s, s', a) && Local(s', a)
            && s'.inProgress == s.inProgress && s'.guards == s.guards && |s'.channels| == |s.channels| + 1
            && s'.attempts[a].ownsSlot == s.attempts[a].ownsSlot
            && (forall k :: 0 <= k < |s.channels| ==> (k in s'.discarded <==> k in s.discarded))
            && (s'.attempts[a].outcome == s.attempts[a].outcome ||
                (s.attempts[a].child.None? && s.attempts[a].outcome.Pending?))
  {
  }

  lemma HandOverHoldsChannels(s: State, a: nat)
    requires ChannelsHeld(s) && s.Has(a)
    ensures ChannelsHeld(HandOver(s, a))
  {
    var s' := HandOver(s, a);
    forall i | 0 <= i < |s'.attempts| && s'.attempts[i].outcome.Resolved? ensures SameCall(s', i) {
      if s.attempts[i].outcome.Resolved? {
        assert SameCall(s, i);
      }
    }
  }

  lemma CreatedKeepsInv(s: State, a: nat)
    requires Inv(s) && s.Has(a) && s.attempts[a].phase.Handshake?
    ensures Inv(Created(s, a))
  {
    AbandonKeepsInv(s, a);
    HandOverKeepsInv(Abandon(s, a), a);
  }

  lemma LinkDropKeepsInv(s: State, a: nat)
    requires Inv(s) && Enabled(s, LinkDrops(a))
    ensures Inv(Next(s, LinkDrops(a)))
  {
    assert Local(s, a);
    QuietKeepsInv(s, Next(s, LinkDrops(a)), a);
  }

  /** The effect of `Forward(a)` on the attempts: `a` is marked, and its parent settles unless it had before. */
  predicate Forwards(s: State, s': State, a: nat, p: nat) {
    && s.Has(a) && s.Has(p) && p != a && |s'.attempts| == |s.attempts|
    && s' == s.(attempts := s'.attempts)
    && (forall i :: 0 <= i < |s.attempts| && i != a && i != p ==> s'.attempts[i] == s.attempts[i])
    && s'.attempts[a] == s.attempts[a].(forwarded := true)
    && s'.attempts[p] == s.attempts[p].(outcome := s'.attempts[p].outcome)
    && s'.attempts[p].outcome ==
         (if s.attempts[p].outcome.Pending? then s.attempts[a].outcome else s.attempts[p].outcome)
  }

  lemma ForwardKeepsLinked(s: State, s': State, a: nat, p: nat)
    requires AllLinked(s) && Enabled(s, Forward(a)) && s.attempts[a].parent == Some(p) && Forwards(s, s', a, p)
    ensures AllLinked(s')
  {
    assert Linked(s, a) && Linked(s, p);
    ForwardedIsLinked(s, s', a, p);
    SettledIsLinked(s, s', a, p);
    forall i | 0 <= i < |s'.attempts| && i != a && i != p ensures Linked(s', i) {
      assert Linked(s, i);
      OtherIsLinked(s, s', a, p, i);
    }
  }

  lemma ForwardedIsLinked(s: State, s': State, a: nat, p: nat)
    requires s.Has(a) && Linked(s, a) && s.attempts[a].Settled() && s.attempts[a].parent == Some(p)
    requires Forwards(s, s', a, p)
    ensures Linked(s', a)
  {
  }

  lemma SettledIsLinked(s: State, s': State, a: nat, p: nat)
    requires s.Has(a) && Linked(s, a) && s.attempts[a].Settled() && s.attempts[a].parent == Some(p)
    requires Forwards(s, s', a, p) && Linked(s, p)
    ensures Linked(s', p)
  {
    assert p < a && s.attempts[p].child == Some(a);
    if s.attempts[p].parent.Some? {
      var q := s.attempts[p].parent.value;
      assert q < p && s'.attempts[q] == s.attempts[q];
    }
  }

  lemma OtherIsLinked(s: State, s': State, a: nat, p: nat, i: nat)
    requires s.Has(a) && Linked(s, a) && s.attempts[a].parent == Some(p) && Forwards(s, s', a, p)
    requires s.Has(i) && i != a && i != p && Linked(s, i)
    ensures Linked(s', i)
  {
    assert s.attempts[i].parent != Some(p);
  }

  lemma ForwardKeepsLocal(s: State, s': State, a: nat, p: nat)
    requires AllLocal(s) && AllLinked(s) && Enabled(s, Forward(a)) && s.attempts[a].parent == Some(p)
    requires Forwards(s, s', a, p)
    ensures AllLocal(s')
  {
    assert Linked(s, a);
    forall i | 0 <= i < |s'.attempts| ensures Local(s', i) {
      if i == p {
        SettledKeepsLocal(s, s', a, p);
      } else {
        SameKeepsLocal(s, s', i);
      }
    }
  }

  lemma SameKeepsLocal(s: State, s': State, i: nat)
    requires s.Has(i) && Local(s, i) && |s'.attempts| == |s.attempts| && s' == s.(attempts := s'.attempts)
    requires s'.attempts[i] == s.attempts[i].(forwarded := s'.attempts[i].forwarded)
    ensures Local(s', i)
  {
  }

  /** The attempt that takes over the outcome has been retried, so it holds nothing. */
  lemma SettledKeepsLocal(s: State, s': State, a: nat, p: nat)
    requires AllLocal(s) && AllLinked(s) && Enabled(s, Forward(a)) && s.attempts[a].parent == Some(p)
    requires Forwards(s, s', a, p)
    ensures Local(s', p)
  {
    assert Linked(s, a) && Local(s, a) && Local(s, p);
  }

  lemma ForwardKeepsSlots(s: State, s': State, a: nat, p: nat)
    requires SlotsOwned(s) && Forwards(s, s', a, p)
    ensures SlotsOwned(s')
  {
    forall i | 0 <= i < |s'.attempts|
      ensures s'.attempts[i].ownsSlot == s.attempts[i].ownsSlot && s'.attempts[i].address == s.attempts[i].address
    {
      assert i == a || i == p || s'.attempts[i] == s.attempts[i];
    }
    forall x | x in s'.inProgress ensures Owned(s', x) {
      assert Owned(s, x);
      var i :| 0 <= i < |s.attempts| && s.attempts[i].ownsSlot && s.attempts[i].address == x;
      assert s'.attempts[i].ownsSlot && s'.attempts[i].address == x;
    }
  }

  lemma ForwardKeepsOrdered(s: State, s': State, a: nat, p: nat)
    requires Ordered(s) && Forwards(s, s', a, p)
    ensures Ordered(s')
  {
    forall i | 0 <= i < |s'.attempts|
      ensures s'.attempts[i].caller == s.attempts[i].caller && s'.attempts[i].child == s.attempts[i].child
      ensures s'.attempts[i].tryCount == s.attempts[i].tryCount && s'.attempts[i].Entry() == s.attempts[i].Entry()
    {
      assert i == a || i == p || s'.attempts[i] == s.attempts[i];
    }
  }

  lemma ForwardKeepsCall(s: State, s': State, a: nat, p: nat, i: nat)
    requires ChannelsHeld(s) && Forwards(s, s', a, p) && s.attempts[a].caller == s.attempts[p].caller
    requires s'.Has(i) && s'.attempts[i].outcome.Resolved?
    ensures SameCall(s', i)
  {
    var source := if i == p then (if s.attempts[p].outcome.Pending? then a else p) else i;
    OutcomeSource(s, s', a, p, i, source);
    assert SameCall(s, source);
    CallerStays(s, s', a, p, s.channels[s'.attempts[i].outcome.channel]);
    CallerStays(s, s', a, p, i);
  }

  lemma OutcomeSource(s: State, s': State, a: nat, p: nat, i: nat, source: nat)
    requires Forwards(s, s', a, p) && s.attempts[a].caller == s.attempts[p].caller && s.Has(i)
    requires source == if i == p then (if s.attempts[p].outcome.Pending? then a else p) else i
    ensures s.attempts[source].outcome == s'.attempts[i].outcome
    ensures s.attempts[source].caller == s.attempts[i].caller
  {
  }

  lemma CallerStays(s: State, s': State, a: nat, p: nat, i: nat)
    requires Forwards(s, s', a, p) && s.Has(i)
    ensures s'.attempts[i].caller == s.attempts[i].caller
  {
    assert i == a || i == p || s'.attempts[i] == s.attempts[i];
  }

  lemma ForwardKeepsChannels(s: State, s': State, a: nat, p: nat)
    requires ChannelsHeld(s) && Forwards(s, s', a, p) && s.attempts[a].caller == s.attempts[p].caller
    ensures ChannelsHeld(s')
  {
    forall i | 0 <= i < |s'.attempts| && s'.attempts[i].outcome.Resolved? ensures SameCall(s', i) {
      ForwardKeepsCall(s, s', a, p, i);
    }
    forall k | 0 <= k < |s.channels| && k !in s.discarded
      ensures s'.attempts[s.channels[k]].outcome == Resolved(k)
    {
      var c := s.channels[k];
      assert c == a || c == p || s'.attempts[c] == s.attempts[c];
    }
  }

  lemma ForwardedForwards(s: State, a: nat)
    requires Enabled(s, Forward(a)) && s.attempts[a].parent.value != a
    ensures Forwards(s, Forwarded(s, a), a, s.attempts[a].parent.value)
  {
  }

  lemma ForwardKeepsInv(s: State, a: nat)
    requires Inv(s) && Enabled(s, Forward(a))
    ensures Inv(Forwarded(s, a))
  {
    var s' := Forwarded(s, a);
    var p := s.attempts[a].parent.value;
    assert Linked(s, a);
    ForwardedForwards(s, a);
    ForwardKeepsLinked(s, s', a, p);
    ForwardKeepsLocal(s, s', a, p);
    ForwardKeepsSlots(s, s', a, p);
    ForwardKeepsOrdered(s, s', a, p);
    ForwardKeepsChannels(s, s', a, p);
  }

  lemma StepKeepsInv(s: State, e: Event)
    requires Inv(s) && Enabled(s, e)
    ensures Inv(Next(s, e))
  {
    match e
    case OnData => SharedKeepsInv(s, Next(s, e));
    case OpenChannel(address, isBle, signal, peripheral) =>
      OpenKeepsInv(s, address, isBle, signal, 1, None, peripheral);
    case Close => SharedKeepsInv(s, Next(s, e));
    case Abort(_) => SharedKeepsInv(s, Next(s, e));
    case AbortFires(a) => assert Local(s, a); GiveUpKeepsInv(s, a, true, Aborted);
    case ConnectTimeout(a) => assert Local(s, a); GiveUpKeepsInv(s, a, true, ConnectTimedOut);
    case DisconnectTimeout(a) => assert Local(s, a); GiveUpKeepsInv(s, a, false, DisconnectTimedOut);
    case InterviewTimeout(a) => assert Local(s, a); GiveUpKeepsInv(s, a, false, InterviewTimedOut);
    case ConnectSucceeds(a) => ConnectHandledKeepsInv(s, a);
    case ConnectFails(a, peripheral) => ConnectErrorHandledKeepsInv(s, a, peripheral);
    case ConnectRejects(a, peripheral) => ConnectRejectedKeepsInv(s, a, peripheral);
    case Disconnects(a, peripheral) => assert Local(s, a); RetryKeepsInv(s, a, peripheral);
    case InterviewResumes(a, result) => InterviewedKeepsInv(s, a, result);
    case CreateReturns(a) => CreatedKeepsInv(s, a);
    case CreateThrows(a, linked, peripheral) => FailLinkKeepsInv(s, a, linked, peripheral);
    case DiscardReturns(a) => DiscardedKeepsInv(s, a);
    case DiscardThrows(a, linked, peripheral) => FailLinkKeepsInv(s, a, linked, peripheral);
    case UnlinkReturns(a, peripheral) => assert Local(s, a); RetryAndReturnKeepsInv(s, a, peripheral);
    case LinkDrops(a) => LinkDropKeepsInv(s, a);
    case Forward(a) => ForwardKeepsInv(s, a);
  }

  lemma SharedKeepsInv(s: State, s': State)
    requires Inv(s) && s'.attempts == s.attempts && s'.inProgress == s.inProgress && s'.guards == s.guards
    requires s'.channels == s.channels && s'.discarded == s.discarded && s.aborted <= s'.aborted
    ensures Inv(s')
  {
    forall i | 0 <= i < |s'.attempts| ensures Local(s', i) && Linked(s', i) {
      assert Local(s, i) && Linked(s, i);
    }
    forall x | x in s'.inProgress ensures Owned(s', x) {
      assert Owned(s, x);
    }
    forall i | 0 <= i < |s'.attempts| && s'.attempts[i].outcome.Resolved? ensures SameCall(s', i) {
      assert SameCall(s, i);
    }
  }

  lemma DiscardedKeepsInv(s: State, a: nat)
    requires Inv(s) && s.Has(a) && s.attempts[a].phase.Discarding?
    ensures Inv(Abandon(Enter(s, a, Finished), a))
  {
    assert Local(s, a);
    EnterKeepsInv(s, a, Finished);
    AbandonKeepsInv(Enter(s, a, Finished), a);
  }
}
