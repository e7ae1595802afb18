/**
 Connection attempts of `NobleBleCentralInterface` (packages/nodejs-ble/src/NobleBleChannel.ts).

 Every call of `#openChannel` is one attempt.  The code an attempt runs between two awaits is one step, and the steps
 of all attempts interleave freely.  The radio, the timers, the abort signals and the peripheral are adversarial: an
 event names the callback that fires and carries what the callback observes of the peripheral.
 */
module BleCentral {
  import opened Options

  type Address = string
  type Signal = nat

  datatype PeripheralState = Connected | Disconnecting | Connecting | Other

  datatype Error =
    | InterfaceClosed | NotAdded | UnsupportedAddress | Aborted | TooManyTries | UnknownDevice
    | AlreadyConnected | AlreadyInProgress
    | ConnectTimedOut | DisconnectTimedOut | InterviewTimedOut | ListenerCleared | MissingCharacteristics

  datatype Outcome = Pending | Resolved(channel: nat) | Rejected(error: Error)

  /** Where the attempt's `connectHandler` stands: not called yet, at one of its awaits, or returned. */
  datatype Phase = Waiting | Interview | Handshake | Discarding | Unlinking | Finished

  /**
   The locals one `#openChannel` call captures.  `caller`, `parent`, `child`, `started` and `forwarded` record the
   retry chain: which call of `openChannel` it serves, which attempt it retries, which attempt retries it, whether it
   got past the entry checks, and whether its result has reached the promise of the attempt it retries.
   */
  datatype Attempt = Attempt(
    caller: nat,
    parent: Option<nat>,
    child: Option<nat>,
    started: bool,
    forwarded: bool,
    address: Address,
    signal: Option<Signal>,
    tryCount: int,
    foundDisconnecting: bool,
    outcome: Outcome,
    ownsSlot: bool,
    connectTimer: bool,
    disconnectTimer: bool,
    interviewTimer: bool,
    onConnect: bool,
    onDisconnect: bool,
    onAbort: bool,
    onDrop: bool,
    connecting: bool,
    phase: Phase)
  {
    /** The try number the attempt was started with; finding the peripheral disconnecting does not use a try up. */
    function Entry(): int { tryCount + (if foundDisconnecting then 1 else 0) }

    predicate Settled() { !outcome.Pending? }

    predicate Timed() { connectTimer || disconnectTimer || interviewTimer }

    /** The link is up and the interview over: the attempt awaits the handshake or the clean-up of a failed one. */
    predicate Committed() { phase.Handshake? || phase.Discarding? || phase.Unlinking? }
  }

  /** `channels[k]` is the attempt whose `create` returned channel `k`; `discarded` are the channels closed again. */
  datatype State = State(
    inProgress: set<Address>,
    guards: set<nat>,
    openChannels: set<Address>,
    closed: bool,
    listening: bool,
    aborted: set<Signal>,
    attempts: seq<Attempt>,
    channels: seq<nat>,
    discarded: set<nat>)
  {
    predicate Has(a: nat) { a < |attempts| }

    predicate IsAborted(signal: Option<Signal>) { signal.Some? && signal.value in aborted }
  }

  /** What an attempt finds when it looks its peripheral up. */
  datatype Peripheral = Unknown | Found(state: PeripheralState)

  datatype InterviewResult = MoreToRead | Failed(peripheral: Peripheral) | NoMatch | Match

  datatype Event =
    | OnData
    | OpenChannel(address: Address, isBle: bool, signal: Option<Signal>, peripheral: Peripheral)
    | Close
    | Abort(aborting: Signal)
    | AbortFires(a: nat)
    | ConnectTimeout(a: nat)
    | DisconnectTimeout(a: nat)
    | InterviewTimeout(a: nat)
    | ConnectSucceeds(a: nat)
    | ConnectFails(a: nat, retryFinds: Peripheral)
    | ConnectRejects(a: nat, retryFinds: Peripheral)
    | Disconnects(a: nat, retryFinds: Peripheral)
    | InterviewResumes(a: nat, result: InterviewResult)
    | CreateReturns(a: nat)
    | CreateThrows(a: nat, linked: bool, retryFinds: Peripheral)
    | DiscardReturns(a: nat)
    | DiscardThrows(a: nat, linked: bool, retryFinds: Peripheral)
    | UnlinkReturns(a: nat, retryFinds: Peripheral)
    | LinkDrops(a: nat)
    | Forward(a: nat)

  // ---- Entering an attempt -------------------------------------------------------------------------------------

  /** The entry checks of `#openChannel`, in the source's order. */
  function Refusal(s: State, address: Address, isBle: bool, signal: Option<Signal>, tryCount: int,
                   peripheral: Peripheral): Option<Error>
  {
    if s.closed then Some(InterfaceClosed)
    else if !s.listening then Some(NotAdded)
    else if !isBle then Some(UnsupportedAddress)
    else if s.IsAborted(signal) then Some(Aborted)
    else if tryCount > 3 then Some(TooManyTries)
    else if peripheral.Unknown? then Some(UnknownDevice)
    else if address in s.openChannels then Some(AlreadyConnected)
    else if address in s.inProgress then Some(AlreadyInProgress)
    else None
  }

  function Refused(caller: nat, parent: Option<nat>, address: Address, signal: Option<Signal>, tryCount: int,
                   error: Error): Attempt
  {
    Attempt(caller, parent, None, false, false, address, signal, tryCount, false, Rejected(error),
            false, false, false, false, false, false, false, false, false, Finished)
  }

  /** What an accepted attempt does next depends on the state it finds the peripheral in. */
  function Accepted(caller: nat, parent: Option<nat>, address: Address, signal: Option<Signal>, tryCount: int,
                    state: PeripheralState): Attempt
  {
    var base := Attempt(caller, parent, None, true, false, address, signal, tryCount, false, Pending,
                        true, false, false, false, false, false, signal.Some?, false, false, Waiting);
    match state
    case Connected => base.(interviewTimer := true, phase := Interview)
    case Disconnecting =>
      base.(foundDisconnecting := true, tryCount := tryCount - 1, disconnectTimer := true, onDisconnect := true)
    case _ => base.(connectTimer := true, onConnect := true, onDisconnect := true, connecting := true)
  }

  predicate ParentOk(s: State, parent: Option<nat>) { parent.Some? ==> s.Has(parent.value) }

  function Open(s: State, address: Address, isBle: bool, signal: Option<Signal>, tryCount: int, parent: Option<nat>,
                peripheral: Peripheral): State
    requires ParentOk(s, parent)
  {
    var id := |s.attempts|;
    var caller := if parent.Some? then s.attempts[parent.value].caller else id;
    var linked := if parent.Some? then s.attempts[parent.value := s.attempts[parent.value].(child := Some(id))]
                  else s.attempts;
    var refusal := Refusal(s, address, isBle, signal, tryCount, peripheral);
    if refusal.Some? then
      s.(attempts := linked + [Refused(caller, parent, address, signal, tryCount, refusal.value)])
    else
      s.(inProgress := s.inProgress + {address},
         guards := s.guards + {id},
         attempts := linked + [Accepted(caller, parent, address, signal, tryCount, peripheral.state)])
  }

  // ---- The closures of an attempt ------------------------------------------------------------------------------

  function Put(s: State, a: nat, attempt: Attempt): State
    requires s.Has(a)
  {
    s.(attempts := s.attempts[a := attempt])
  }

  function ReleaseSlot(s: State, a: nat): State
    requires s.Has(a)
  {
    if s.attempts[a].ownsSlot then
      Put(s, a, s.attempts[a].(ownsSlot := false)).(inProgress := s.inProgress - {s.attempts[a].address})
    else s
  }

  function ClearGuard(s: State, a: nat): State
    requires s.Has(a)
  {
    Put(s, a, s.attempts[a].(connectTimer := false, interviewTimer := false, disconnectTimer := false,
                             onAbort := false)).(guards := s.guards - {a})
  }

  function Abandon(s: State, a: nat): State
    requires s.Has(a)
  {
    ReleaseSlot(ClearGuard(s, a), a)
  }

  function StopListening(s: State, a: nat, toConnect: bool): State
    requires s.Has(a)
  {
    Put(s, a, s.attempts[a].(onDisconnect := false, onConnect := s.attempts[a].onConnect && !toConnect))
  }

  function Settle(s: State, a: nat, outcome: Outcome): State
    requires s.Has(a)
  {
    if s.attempts[a].Settled() then s else Put(s, a, s.attempts[a].(outcome := outcome))
  }

  function Enter(s: State, a: nat, phase: Phase): State
    requires s.Has(a)
  {
    Put(s, a, s.attempts[a].(phase := phase))
  }

  /** The timeout and abort callbacks: drop the listeners, the guard and the slot, then reject. */
  function GiveUp(s: State, a: nat, toConnect: bool, error: Error): State
    requires s.Has(a)
  {
    Settle(Abandon(StopListening(s, a, toConnect), a), a, Rejected(error))
  }

  /** The next attempt of the same call. */
  function Reopen(s: State, a: nat, peripheral: Peripheral): State
    requires s.Has(a)
  {
    Open(s, s.attempts[a].address, true, s.attempts[a].signal, s.attempts[a].tryCount + 1, Some(a), peripheral)
  }

  /** `reTryHandler`. */
  function Retry(s: State, a: nat, peripheral: Peripheral): State
    requires s.Has(a)
  {
    Reopen(StopListening(Abandon(s, a), a, true), a, peripheral)
  }

  /** `reTryHandler` called from within `connectHandler`, then that handler's `finally`. */
  function RetryAndReturn(s: State, a: nat, peripheral: Peripheral): State
    requires s.Has(a)
  {
    Abandon(Retry(Enter(s, a, Finished), a, peripheral), a)
  }

  function DropChannel(s: State, a: nat): State
    requires s.Has(a)
  {
    ReleaseSlot(s.(openChannels := s.openChannels - {s.attempts[a].address}), a)
  }

  /** The inner `catch`: release the slot and the channel entry, unlink the peripheral if it is still up, retry. */
  function FailLink(s: State, a: nat, linked: bool, peripheral: Peripheral): State
    requires s.Has(a)
  {
    if linked then Enter(DropChannel(s, a), a, Unlinking) else RetryAndReturn(DropChannel(s, a), a, peripheral)
  }

  function ConnectHandled(s: State, a: nat): State
    requires s.Has(a)
  {
    BeginInterview(Put(s, a, s.attempts[a].(onConnect := false, connectTimer := false, connecting := false)), a)
  }

  function BeginInterview(s: State, a: nat): State
    requires s.Has(a)
  {
    if a !in s.guards then Enter(s, a, Finished)
    else if !s.listening then GiveUp(Enter(s, a, Finished), a, false, ListenerCleared)
    else Put(s, a, s.attempts[a].(interviewTimer := true, phase := Interview))
  }

  function ConnectErrorHandled(s: State, a: nat, peripheral: Peripheral): State
    requires s.Has(a)
  {
    var s1 := Put(s, a, s.attempts[a].(onConnect := false, connectTimer := false, phase := Finished));
    if a !in s1.guards then s1 else Retry(s1, a, peripheral)
  }

  function ConnectRejected(s: State, a: nat, peripheral: Peripheral): State
    requires s.Has(a)
  {
    var s1 := Put(s, a, s.attempts[a].(connecting := false));
    if a !in s1.guards then s1 else Retry(s1, a, peripheral)
  }

  function Interviewed(s: State, a: nat, result: InterviewResult): State
    requires s.Has(a)
  {
    if a !in s.guards then Abandon(Enter(s, a, Finished), a)
    else
      match result
      case MoreToRead => s
      case Failed(peripheral) => RetryAndReturn(s, a, peripheral)
      case NoMatch => GiveUp(Enter(s, a, Finished), a, false, MissingCharacteristics)
      case Match =>
        Put(s, a, s.attempts[a].(interviewTimer := false, onDisconnect := false, onDrop := true, phase := Handshake))
          .(openChannels := s.openChannels + {s.attempts[a].address})
  }

  function Created(s: State, a: nat): State
    requires s.Has(a)
  {
    HandOver(Abandon(s, a), a)
  }

  /** `resolveOnce` with a fresh channel; a channel the promise no longer takes is closed again. */
  function HandOver(s: State, a: nat): State
    requires s.Has(a)
  {
    var k := |s.channels|;
    var s1 := s.(channels := s.channels + [a]);
    if s.attempts[a].Settled() then Enter(s1, a, Discarding).(discarded := s.discarded + {k})
    else Put(s1, a, s.attempts[a].(outcome := Resolved(k), phase := Finished))
  }

  /** `.then(resolveOnce).catch(rejectOnce)`: an attempt's result reaches the attempt it retries. */
  function Forwarded(s: State, a: nat): State
    requires s.Has(a) && s.attempts[a].parent.Some? && s.Has(s.attempts[a].parent.value)
  {
    Settle(Put(s, a, s.attempts[a].(forwarded := true)), s.attempts[a].parent.value, s.attempts[a].outcome)
  }

  // ---- Runs ----------------------------------------------------------------------------------------------------

  const INITIAL := State({}, {}, {}, false, false, {}, [], [], {})

  /** The attempt whose code an event runs. */
  function Actor(e: Event): Option<nat> {
    match e
    case OnData => None
    case OpenChannel(_, _, _, _) => None
    case Close => None
    case Abort(_) => None
    case _ => Some(e.a)
  }

  /**
   When the callback an event names can fire.  `connecting` holds while `connectAsync` may still reject: noble rejects
   it from a failed `connect` event and never after a successful one.
   */
  predicate Enabled(s: State, e: Event) {
    match e
    case OnData => true
    case OpenChannel(_, _, _, _) => true
    case Close => true
    case Abort(_) => true
    case AbortFires(a) => s.Has(a) && s.attempts[a].onAbort && s.IsAborted(s.attempts[a].signal)
    case ConnectTimeout(a) => s.Has(a) && s.attempts[a].connectTimer
    case DisconnectTimeout(a) => s.Has(a) && s.attempts[a].disconnectTimer
    case InterviewTimeout(a) => s.Has(a) && s.attempts[a].interviewTimer
    case ConnectSucceeds(a) => s.Has(a) && s.attempts[a].onConnect
    case ConnectFails(a, _) => s.Has(a) && s.attempts[a].onConnect
    case ConnectRejects(a, _) => s.Has(a) && s.attempts[a].connecting
    case Disconnects(a, _) => s.Has(a) && s.attempts[a].onDisconnect
    case InterviewResumes(a, _) => s.Has(a) && s.attempts[a].phase.Interview?
    case CreateReturns(a) => s.Has(a) && s.attempts[a].phase.Handshake?
    case CreateThrows(a, _, _) => s.Has(a) && s.attempts[a].phase.Handshake?
    case DiscardReturns(a) => s.Has(a) && s.attempts[a].phase.Discarding?
    case DiscardThrows(a, _, _) => s.Has(a) && s.attempts[a].phase.Discarding?
    case UnlinkReturns(a, _) => s.Has(a) && s.attempts[a].phase.Unlinking?
    case LinkDrops(a) => s.Has(a) && s.attempts[a].onDrop
    case Forward(a) =>
      s.Has(a) && s.attempts[a].Settled() && !s.attempts[a].forwarded && s.attempts[a].parent.Some? &&
      s.Has(s.attempts[a].parent.value)
  }

  function Next(s: State, e: Event): State
    requires Enabled(s, e)
  {
    match e
    case OnData => s.(listening := true)
    case OpenChannel(address, isBle, signal, peripheral) => Open(s, address, isBle, signal, 1, None, peripheral)
    case Close => s.(closed := true, openChannels := {})
    case Abort(signal) => s.(aborted := s.aborted + {signal})
    case AbortFires(a) => GiveUp(s, a, true, Aborted)
    case ConnectTimeout(a) => GiveUp(s, a, true, ConnectTimedOut)
    case DisconnectTimeout(a) => GiveUp(s, a, false, DisconnectTimedOut)
    case InterviewTimeout(a) => GiveUp(s, a, false, InterviewTimedOut)
    case ConnectSucceeds(a) => ConnectHandled(s, a)
    case ConnectFails(a, peripheral) => ConnectErrorHandled(s, a, peripheral)
    case ConnectRejects(a, peripheral) => ConnectRejected(s, a, peripheral)
    case Disconnects(a, peripheral) => Retry(s, a, peripheral)
    case InterviewResumes(a, result) => Interviewed(s, a, result)
    case CreateReturns(a) => Created(s, a)
    case CreateThrows(a, linked, peripheral) => FailLink(s, a, linked, peripheral)
    case DiscardReturns(a) => Abandon(Enter(s, a, Finished), a)
    case DiscardThrows(a, linked, peripheral) => FailLink(s, a, linked, peripheral)
    case UnlinkReturns(a, peripheral) => RetryAndReturn(s, a, peripheral)
    case LinkDrops(a) =>
      Put(s, a, s.attempts[a].(onDrop := false)).(openChannels := s.openChannels - {s.attempts[a].address})
    case Forward(a) => Forwarded(s, a)
  }

  predicate IsRun(s: State, events: seq<Event>)
    decreases |events|
  {
    events == [] || (Enabled(s, events[0]) && IsRun(Next(s, events[0]), events[1..]))
  }

  function Run(s: State, events: seq<Event>): State
    requires IsRun(s, events)
    decreases |events|
  {
    if events == [] then s else Run(Next(s, events[0]), events[1..])
  }
}
