/**
 The advertising life cycle of the BLE peripheral (`BlenoBleServer` in packages/nodejs-ble/src/BlenoBleServer.ts): the
 adapter's state changes, `advertise`, which may have to await the end of an earlier advertisement, `stopAdvertising`,
 `disconnect` and `close`.
 */
module BlenoAdvertising {
  import opened Options

  const POWERED_ON := "poweredOn"

  /** An `advertise` call that awaits the end of the advertisement before it. */
  datatype Waiting<P> = Waiting(payload: P, released: bool)

  /**
   `stopListeners` counts the pending `once("advertisingStop")` listeners.  `onAir` is what the adapter was last told:
   to broadcast a payload, or to stop.  The last three fields record history: the payloads installed, the payloads
   handed to the adapter to broadcast, and how often the adapter was told to shut down.
   */
  datatype State<P> = State(
    state: string,
    isAdvertising: bool,
    data: Option<P>,
    deferred: bool,
    disconnected: bool,
    closing: bool,
    stopListeners: nat,
    waiting: seq<Waiting<P>>,
    onAir: Option<P>,
    installed: seq<P>,
    broadcasts: seq<P>,
    shutdowns: nat)

  datatype Event<P> =
    | StateChange(state: string)
    | Advertise(payload: P)
    | AdvertiseResumes(index: nat)
    | StopAdvertising
    | AdvertisingStopped
    | ClientDisconnected
    | Disconnect
    | Close

  function Initial<P>(): State<P> { State("unknown", false, None, false, false, false, 0, [], None, [], [], 0) }

  predicate Enabled<P>(s: State<P>, e: Event<P>) {
    e.AdvertiseResumes? ==> e.index < |s.waiting| && s.waiting[e.index].released
  }

  function Broadcast<P>(s: State<P>, payload: P): State<P> {
    s.(broadcasts := s.broadcasts + [payload], onAir := Some(payload), isAdvertising := true)
  }

  /** The rest of `advertise` once no earlier advertisement is on the air. */
  function Install<P>(s: State<P>, payload: P): State<P> {
    var s1 := s.(data := Some(payload), installed := s.installed + [payload]);
    if s.state != POWERED_ON then s1.(deferred := true) else Broadcast(s1.(deferred := false), payload)
  }

  function Stop<P>(s: State<P>): State<P> {
    var s1 := s.(deferred := false, data := None);
    if s.isAdvertising then s1.(onAir := None, stopListeners := s.stopListeners + 1) else s1
  }

  function Disconnected<P>(s: State<P>): State<P> {
    var s1 := s.(isAdvertising := false);
    if s.disconnected then s1 else s1.(disconnected := true, onAir := None, shutdowns := s.shutdowns + 1)
  }

  function Changed<P>(s: State<P>, state: string): State<P> {
    var s1 := s.(state := state);
    if state == s.state then s
    else if state != POWERED_ON then
      if s.disconnected || s.closing then s1 else s1.(onAir := None)
    else if s.data.Some? then Broadcast(s1.(deferred := false), s.data.value)
    else s1
  }

  function Released<P>(waiting: seq<Waiting<P>>): seq<Waiting<P>> {
    seq(|waiting|, i requires 0 <= i < |waiting| => waiting[i].(released := true))
  }

  function Without<T>(s: seq<T>, i: nat): seq<T>
    requires i < |s|
  {
    s[..i] + s[i + 1..]
  }

  function Next<P>(s: State<P>, e: Event<P>): State<P>
    requires Enabled(s, e)
  {
    match e
    case StateChange(state) => Changed(s, state)
    case Advertise(payload) =>
      if s.isAdvertising then Stop(s).(waiting := s.waiting + [Waiting(payload, false)]) else Install(s, payload)
    case AdvertiseResumes(i) =>
      Install(s.(waiting := Without(s.waiting, i), isAdvertising := false), s.waiting[i].payload)
    case StopAdvertising => Stop(s)
    case AdvertisingStopped =>
      if s.stopListeners == 0 then s
      else s.(isAdvertising := false, stopListeners := 0, waiting := Released(s.waiting))
    case ClientDisconnected => s.(isAdvertising := false)
    case Disconnect => Disconnected(s)
    case Close => if s.closing then s else Disconnected(s.(closing := true))
  }

  predicate IsRun<P>(s: State<P>, run: seq<Event<P>>)
    decreases |run|
  {
    run == [] || (Enabled(s, run[0]) && IsRun(Next(s, run[0]), run[1..]))
  }

  function Run<P>(s: State<P>, run: seq<Event<P>>): State<P>
    requires IsRun(s, run)
    decreases |run|
  {
    if run == [] then s else Run(Next(s, run[0]), run[1..])
  }

  // ---- Invariants ----------------------------------------------------------------------------------------------

  predicate EndsWith<T(==)>(s: seq<T>, x: T) { s != [] && s[|s| - 1] == x }

  /** What is to be advertised was installed last and was broadcast last, unless it waits for the adapter. */
  predicate DataInv<P(==)>(s: State<P>) {
    && (s.deferred ==> s.data.Some? && s.state != POWERED_ON)
    && (s.data.Some? ==> EndsWith(s.installed, s.data.value))
    && (s.data.Some? && !s.deferred ==> EndsWith(s.broadcasts, s.data.value))
    && (forall i :: 0 <= i < |s.broadcasts| ==> s.broadcasts[i] in s.installed)
  }

  /** Until the adapter is shut down, it broadcasts the payload in force while powered on and nothing while not. */
  predicate AirInv<P(==)>(s: State<P>) {
    !s.disconnected ==>
      && (s.data.Some? && s.state == POWERED_ON ==> s.onAir == s.data)
      && (s.state != POWERED_ON ==> s.onAir.None?)
  }

  /** Every waiting `advertise` will be released, and the adapter is shut down once. */
  predicate WaitInv<P>(s: State<P>) {
    && (forall i :: 0 <= i < |s.waiting| && !s.waiting[i].released ==> s.stopListeners > 0)
    && (s.closing ==> s.disconnected)
    && s.shutdowns == (if s.disconnected then 1 else 0)
  }

  lemma InstallKeepsDataInv<P>(s: State<P>, payload: P)
    requires DataInv(s)
    ensures DataInv(Install(s, payload))
  {
    var s1 := Install(s, payload);
    forall i | 0 <= i < |s1.broadcasts| ensures s1.broadcasts[i] in s1.installed {
      if i < |s.broadcasts| {
        assert s.broadcasts[i] in s.installed;
      } else {
        assert s1.installed[|s.installed|] == payload;
      }
    }
  }

  lemma ChangedKeepsDataInv<P>(s: State<P>, state: string)
    requires DataInv(s)
    ensures DataInv(Changed(s, state))
  {
    if s.data.Some? {
      assert s.installed[|s.installed| - 1] == s.data.value;
    }
  }

  lemma StepKeepsDataInv<P>(s: State<P>, e: Event<P>)
    requires DataInv(s) && Enabled(s, e)
    ensures DataInv(Next(s, e))
  {
    match e
    case StateChange(state) => ChangedKeepsDataInv(s, state);
    case Advertise(payload) => InstallKeepsDataInv(s, payload);
    case AdvertiseResumes(i) =>
      InstallKeepsDataInv(s.(waiting := Without(s.waiting, i), isAdvertising := false), s.waiting[i].payload);
    case _ =>
  }

  lemma ResumeKeepsWaitInv<P>(s: State<P>, i: nat)
    requires WaitInv(s) && i < |s.waiting|
    ensures WaitInv(s.(waiting := Without(s.waiting, i)))
  {
    var left := Without(s.waiting, i);
    assert forall k :: 0 <= k < |left| ==> left[k] == s.waiting[if k < i then k else k + 1];
  }

  lemma InstallKeepsWaitInv<P>(s: State<P>, payload: P)
    requires WaitInv(s)
    ensures WaitInv(Install(s, payload))
  {
  }

  lemma StepKeepsWaitInv<P>(s: State<P>, e: Event<P>)
    requires WaitInv(s) && Enabled(s, e)
    ensures WaitInv(Next(s, e))
  {
    match e
    case Advertise(payload) => InstallKeepsWaitInv(s, payload);
    case AdvertiseResumes(i) =>
      ResumeKeepsWaitInv(s, i);
      InstallKeepsWaitInv(s.(waiting := Without(s.waiting, i), isAdvertising := false), s.waiting[i].payload);
    case _ =>
  }

  lemma StepKeepsAirInv<P>(s: State<P>, e: Event<P>)
    requires AirInv(s) && WaitInv(s) && Enabled(s, e)
    ensures AirInv(Next(s, e))
  {
  }

  lemma {:induction false} RunKeepsInv<P>(s: State<P>, run: seq<Event<P>>)
    requires DataInv(s) && AirInv(s) && WaitInv(s) && IsRun(s, run)
    ensures DataInv(Run(s, run)) && AirInv(Run(s, run)) && WaitInv(Run(s, run))
    decreases |run|
  {
    if run != [] {
      StepKeepsDataInv(s, run[0]);
      StepKeepsAirInv(s, run[0]);
      StepKeepsWaitInv(s, run[0]);
      RunKeepsInv(Next(s, run[0]), run[1..]);
    }
  }

  // ---- What every run promises ---------------------------------------------------------------------------------

  /**
   An advertisement is deferred only while the adapter is not powered on, and whenever the adapter is powered on, the
   advertisement in force is the one broadcast last, and on the air until the adapter is shut down: none is stranded.
   */
  lemma NothingStranded<P>(run: seq<Event<P>>)
    requires IsRun(Initial(), run)
    ensures var s := Run(Initial(), run);
            && (s.deferred ==> s.data.Some? && s.state != POWERED_ON)
            && (s.data.Some? && s.state == POWERED_ON ==>
                  EndsWith(s.broadcasts, s.data.value) && (!s.disconnected ==> s.onAir == s.data))
            && (s.state != POWERED_ON && !s.disconnected ==> s.onAir.None?)
  {
    RunKeepsInv(Initial(), run);
  }

  /** At most one more broadcast, of the payload installed last and on a powered adapter. */
  predicate BroadcastsLast<P(==)>(s: State<P>, s': State<P>) {
    s'.broadcasts != s.broadcasts ==>
      && s'.data.Some? && s'.state == POWERED_ON && s'.isAdvertising
      && s'.broadcasts == s.broadcasts + [s'.data.value]
      && EndsWith(s'.installed, s'.data.value)
  }

  /** The event makes the server broadcast: data meets an adapter that is powered on and free. */
  predicate Starts<P>(s: State<P>, e: Event<P>) {
    match e
    case StateChange(state) => state == "poweredOn" && s.state != "poweredOn" && s.data.Some?
    case Advertise(_) => s.state == "poweredOn" && !s.isAdvertising
    case AdvertiseResumes(_) => s.state == "poweredOn"
    case _ => false
  }

  /** Every step of every run broadcasts at most one payload, the one installed last, and exactly when it is to. */
  lemma BroadcastsLatest<P>(run: seq<Event<P>>, e: Event<P>)
    requires IsRun(Initial(), run) && Enabled(Run(Initial(), run), e)
    ensures BroadcastsLast(Run(Initial(), run), Next(Run(Initial(), run), e))
    ensures var s := Run(Initial(), run);
            Next(s, e).broadcasts != s.broadcasts <==> Starts(s, e)
  {
    RunKeepsInv(Initial(), run);
    StepBroadcasts(Run(Initial(), run), e);
  }

  lemma InstallBroadcasts<P>(s: State<P>, payload: P)
    ensures var s' := Install(s, payload);
            && s'.installed == s.installed + [payload] && s'.data == Some(payload) && s'.state == s.state
            && s'.broadcasts == s.broadcasts + (if s.state == "poweredOn" then [payload] else [])
            && (s.state == "poweredOn" ==> s'.isAdvertising)
  {
  }

  lemma ChangeBroadcasts<P>(s: State<P>, state: string)
    requires DataInv(s)
    ensures BroadcastsLast(s, Changed(s, state))
    ensures Changed(s, state).broadcasts != s.broadcasts <==> Starts(s, StateChange(state))
  {
  }

  lemma StepBroadcasts<P>(s: State<P>, e: Event<P>)
    requires DataInv(s) && Enabled(s, e)
    ensures BroadcastsLast(s, Next(s, e))
    ensures Next(s, e).broadcasts != s.broadcasts <==> Starts(s, e)
  {
    match e
    case StateChange(state) => ChangeBroadcasts(s, state);
    case Advertise(payload) => InstallBroadcasts(s, payload);
    case AdvertiseResumes(i) =>
      InstallBroadcasts(s.(waiting := Without(s.waiting, i), isAdvertising := false), s.waiting[i].payload);
    case _ =>
  }

  /** However often the server is disconnected and closed, the adapter is shut down once. */
  lemma ShutDownOnce<P>(run: seq<Event<P>>)
    requires IsRun(Initial(), run)
    ensures var s := Run(Initial(), run);
            s.shutdowns <= 1 && (s.closing ==> s.shutdowns == 1)
  {
    RunKeepsInv(Initial(), run);
  }

  lemma ClosingIsShutDown<P>(run: seq<Event<P>>)
    requires IsRun(Initial(), run)
    ensures Run(Initial(), run).closing ==> Run(Initial(), run).disconnected
  {
    RunKeepsInv(Initial(), run);
  }

  lemma AirHolds<P>(run: seq<Event<P>>)
    requires IsRun(Initial(), run)
    ensures AirInv(Run(Initial(), run))
  {
    RunKeepsInv(Initial(), run);
  }

  // ---- When a server stays silent ------------------------------------------------------------------------------

  predicate NoAdvertise<P>(run: seq<Event<P>>) { forall i :: 0 <= i < |run| ==> !run[i].Advertise? }

  /** Nothing is broadcast any more unless `advertise` is called again. */
  ghost predicate Silent<P(!new)>(s: State<P>) {
    forall run :: IsRun(s, run) && NoAdvertise(run) ==> Run(s, run).broadcasts == s.broadcasts
  }

  lemma {:induction false} EmptyStaysSilent<P>(s: State<P>, run: seq<Event<P>>)
    requires s.data.None? && s.waiting == [] && IsRun(s, run) && NoAdvertise(run)
    ensures Run(s, run).broadcasts == s.broadcasts
    decreases |run|
  {
    if run != [] {
      var s1 := Next(s, run[0]);
      assert !run[0].Advertise?;
      assert NoAdvertise(run[1..]);
      EmptyStaysSilent(s1, run[1..]);
    }
  }

  lemma RunOne<P>(s: State<P>, e: Event<P>)
    requires Enabled(s, e)
    ensures IsRun(s, [e]) && Run(s, [e]) == Next(s, e)
  {
    assert [e][1..] == [];
  }

  lemma RunTwo<P>(s: State<P>, e: Event<P>, f: Event<P>)
    requires Enabled(s, e) && Enabled(Next(s, e), f)
    ensures IsRun(s, [e, f]) && Run(s, [e, f]) == Next(Next(s, e), f)
  {
    assert [e, f][1..] == [f];
    RunOne(Next(s, e), f);
  }

  /** A step of a silent server that is no `advertise` call leaves it silent. */
  lemma SilentStep<P(!new)>(s: State<P>, e: Event<P>)
    requires Silent(s) && Enabled(s, e) && !e.Advertise?
    ensures Silent(Next(s, e)) && Next(s, e).broadcasts == s.broadcasts
  {
    RunOne(s, e);
    forall run | IsRun(Next(s, e), run) && NoAdvertise(run)
      ensures Run(Next(s, e), run).broadcasts == s.broadcasts
    {
      assert ([e] + run)[1..] == run;
      assert Run(s, [e] + run) == Run(Next(s, e), run);
    }
  }

  lemma DataIsBroadcast<P(!new)>(s: State<P>)
    requires s.data.Some?
    ensures !Silent(s)
  {
    if Silent(s) {
      var off: Event<P>, on: Event<P> := StateChange("poweredOff"), StateChange(POWERED_ON);
      SilentStep(s, off);
      SilentStep(Next(s, off), on);
    }
  }

  lemma ReleasedIsBroadcast<P(!new)>(s: State<P>, i: nat)
    requires i < |s.waiting| && s.waiting[i].released
    ensures !Silent(s)
  {
    if Silent(s) {
      SilentStep(s, AdvertiseResumes(i));
      DataIsBroadcast(Next(s, AdvertiseResumes(i)));
    }
  }

  lemma WaitingIsBroadcast<P(!new)>(s: State<P>)
    requires WaitInv(s) && s.waiting != []
    ensures !Silent(s)
  {
    if s.waiting[0].released {
      ReleasedIsBroadcast(s, 0);
    } else if Silent(s) {
      SilentStep(s, AdvertisingStopped);
      ReleasedIsBroadcast(Next(s, AdvertisingStopped), 0);
    }
  }

  /**
   A server broadcasts nothing more, whatever happens short of another `advertise`, if and only if it has no
   advertisement in force and no `advertise` call still waits for the end of an earlier advertisement.
   */
  lemma SilentIff<P(!new)>(run: seq<Event<P>>)
    requires IsRun(Initial(), run)
    ensures var s := Run(Initial(), run);
            Silent(s) <==> s.data.None? && s.waiting == []
  {
    var s := Run(Initial(), run);
    RunKeepsInv(Initial(), run);
    if s.data.Some? {
      DataIsBroadcast(s);
    } else if s.waiting != [] {
      WaitingIsBroadcast(s);
    } else {
      forall later | IsRun(s, later) && NoAdvertise(later) ensures Run(s, later).broadcasts == s.broadcasts {
        EmptyStaysSilent(s, later);
      }
    }
  }

  /** `stopAdvertising` silences the server exactly when no `advertise` call is waiting. */
  lemma StopSilencesIff<P(!new)>(run: seq<Event<P>>)
    requires IsRun(Initial(), run)
    ensures var s := Run(Initial(), run);
            Silent(Next(s, StopAdvertising)) <==> s.waiting == []
  {
    var s := Run(Initial(), run);
    RunSnoc(Initial(), run, StopAdvertising);
    SilentIff(run + [StopAdvertising]);
  }

  lemma {:induction false} InstalledGrows<P>(s: State<P>, later: seq<Event<P>>)
    requires IsRun(s, later)
    ensures |s.installed| <= |Run(s, later).installed|
    decreases |later|
  {
    if later != [] {
      StepInstalls(s, later[0]);
      InstalledGrows(Next(s, later[0]), later[1..]);
    }
  }

  lemma StepInstalls<P>(s: State<P>, e: Event<P>)
    requires Enabled(s, e)
    ensures |s.installed| <= |Next(s, e).installed|
  {
    match e
    case Advertise(payload) => InstallGrows(s, payload);
    case AdvertiseResumes(i) =>
      InstallGrows(s.(waiting := Without(s.waiting, i), isAdvertising := false), s.waiting[i].payload);
    case _ =>
  }

  /** Nothing is broadcast until data is installed. */
  ghost predicate SilentUntilInstalled<P(!new)>(s: State<P>) {
    forall later :: IsRun(s, later) && Run(s, later).installed == s.installed ==>
                      Run(s, later).broadcasts == s.broadcasts
  }

  lemma {:induction false} NoDataIsSilent<P>(s: State<P>, later: seq<Event<P>>)
    requires s.data.None? && IsRun(s, later) && Run(s, later).installed == s.installed
    ensures Run(s, later).broadcasts == s.broadcasts
    decreases |later|
  {
    if later != [] {
      InstalledGrows(Next(s, later[0]), later[1..]);
      StepWithoutData(s, later[0]);
      NoDataIsSilent(Next(s, later[0]), later[1..]);
    }
  }

  lemma StepWithoutData<P>(s: State<P>, e: Event<P>)
    requires s.data.None? && Enabled(s, e)
    ensures var s' := Next(s, e);
            |s'.installed| > |s.installed| ||
            (s'.installed == s.installed && s'.data.None? && s'.broadcasts == s.broadcasts)
  {
    match e
    case Advertise(payload) => InstallGrows(s, payload);
    case AdvertiseResumes(i) =>
      InstallGrows(s.(waiting := Without(s.waiting, i), isAdvertising := false), s.waiting[i].payload);
    case _ =>
  }

  lemma InstallGrows<P>(s: State<P>, payload: P)
    ensures |Install(s, payload).installed| == |s.installed| + 1
  {
  }

  /** After `stopAdvertising` no continuation broadcasts anything until an `advertise` call installs data. */
  lemma StopSilencesUntilInstalled<P(!new)>(run: seq<Event<P>>)
    requires IsRun(Initial(), run)
    ensures SilentUntilInstalled(Next(Run(Initial(), run), StopAdvertising))
  {
    var s := Next(Run(Initial(), run), StopAdvertising);
    forall later | IsRun(s, later) && Run(s, later).installed == s.installed
      ensures Run(s, later).broadcasts == s.broadcasts
    {
      NoDataIsSilent(s, later);
    }
  }

  /** An `advertise` call that waits when `stopAdvertising` is called is not retracted. */
  lemma WaitingCallSurvivesStop(p: nat, q: nat)
    ensures var run := [StateChange(POWERED_ON), Advertise(p), Advertise(q), StopAdvertising];
            && IsRun(Initial(), run)
            && !Silent(Run(Initial(), run))
  {
    var start: State<nat> := Initial();
    var on, first, second := StateChange(POWERED_ON), Advertise(p), Advertise(q);
    RunTwo(start, on, first);
    RunSnoc(start, [on, first], second);
    assert [on, first] + [second] == [on, first, second];
    RunSnoc(start, [on, first, second], StopAdvertising);
    assert [on, first, second] + [StopAdvertising] == [on, first, second, StopAdvertising];
    StopSilencesIff([on, first, second]);
  }

  /** `close` silences the server exactly when it had nothing to advertise: it does not retract an advertisement. */
  lemma CloseSilencesIff<P(!new)>(run: seq<Event<P>>)
    requires IsRun(Initial(), run)
    ensures var s := Run(Initial(), run);
            Silent(Next(s, Close)) <==> s.data.None? && s.waiting == []
  {
    RunSnoc(Initial(), run, Close);
    SilentIff(run + [Close]);
  }

  lemma {:induction false} RunSnoc<P>(s: State<P>, run: seq<Event<P>>, e: Event<P>)
    requires IsRun(s, run) && Enabled(Run(s, run), e)
    ensures IsRun(s, run + [e]) && Run(s, run + [e]) == Next(Run(s, run), e)
    decreases |run|
  {
    if run == [] {
      RunOne(s, e);
      assert run + [e] == [e];
    } else {
      assert (run + [e])[1..] == run[1..] + [e];
      RunSnoc(Next(s, run[0]), run[1..], e);
    }
  }

  /** A closed server that still has an advertisement broadcasts it when the adapter is powered on again. */
  lemma ClosedServerBroadcasts(payload: nat)
    ensures var run := [StateChange(POWERED_ON), Advertise(payload), Close];
            && IsRun(Initial(), run)
            && !Silent(Run(Initial(), run))
  {
    var start: State<nat> := Initial();
    var on, advertise, close := StateChange(POWERED_ON), Advertise(payload), Close;
    RunTwo(start, on, advertise);
    RunSnoc(start, [on, advertise], close);
    assert [on, advertise] + [close] == [on, advertise, close];
    DataIsBroadcast(Run(start, [on, advertise, close]));
  }

  // ---- The server ----------------------------------------------------------------------------------------------

  class BlenoBleServer<P(!new)> {
    var state: string
    var isAdvertising: bool
    var advertisingData: Option<P>
    var advertisementDeferred: bool
    var disconnected: bool
    var closing: bool
    var stopListeners: nat
    var waiting: seq<Waiting<P>>
    var onAir: Option<P>
    var installed: seq<P>
    var broadcasts: seq<P>
    var shutdowns: nat
    ghost var history: seq<Event<P>>

    ghost function View(): State<P>
      reads this
    {
      State(state, isAdvertising, advertisingData, advertisementDeferred, disconnected, closing, stopListeners,
            waiting, onAir, installed, broadcasts, shutdowns)
    }

    ghost predicate Valid()
      reads this
    {
      IsRun(Initial(), history) && View() == Run(Initial(), history)
    }

    ghost method Record(e: Event<P>)
      requires IsRun(Initial(), history) && Enabled(Run(Initial(), history), e)
      requires View() == Next(Run(Initial(), history), e)
      modifies this`history
      ensures Valid() && history == old(history) + [e]
    {
      RunSnoc(Initial(), history, e);
      history := history + [e];
    }

    constructor ()
      ensures Valid() && history == []
    {
      state, isAdvertising, advertisingData, advertisementDeferred := "unknown", false, None, false;
      disconnected, closing, stopListeners, waiting, onAir := false, false, 0, [], None;
      installed, broadcasts, shutdowns, history := [], [], 0, [];
    }

    method StartBroadcast(payload: P)
      modifies this`broadcasts, this`onAir, this`isAdvertising
      ensures View() == Broadcast(old(View()), payload)
    {
      broadcasts := broadcasts + [payload];
      onAir := Some(payload);
      isAdvertising := true;
    }

    /** A change to powered on broadcasts what is in force; one to another state takes it off the air. */
    method OnStateChange(newState: string)
      requires Valid()
      modifies this`state, this`onAir, this`advertisementDeferred, this`broadcasts, this`isAdvertising, this`history
      ensures Valid() && history == old(history) + [StateChange(newState)]
      ensures state == newState
      ensures var again := newState != old(state) && newState == "poweredOn" && advertisingData.Some?;
              && broadcasts == old(broadcasts) + (if again then [advertisingData.value] else [])
              && isAdvertising == (old(isAdvertising) || again)
              && advertisementDeferred == (old(advertisementDeferred) && !again)
              && onAir == if again then advertisingData
                          else if newState != old(state) && newState != "poweredOn" && !disconnected then None
                          else old(onAir)
      ensures BroadcastsLast(old(View()), View()) && AirInv(View())
    {
      if newState != state {
        state := newState;
        if newState != POWERED_ON {
          if !disconnected && !closing {
            onAir := None;
          }
        } else if advertisingData.Some? {
          if advertisementDeferred {
            advertisementDeferred := false;
          }
          StartBroadcast(advertisingData.value);
        }
      }
      ClosingIsShutDown(history);
      BroadcastsLatest(history, StateChange(newState));
      Record(StateChange(newState));
      AirHolds(history);
    }

    /** The payload is in force; it is broadcast on a powered adapter, and deferred on any other. */
    twostate predicate Installed(payload: P)
      reads this
    {
      var powered := state == "poweredOn";
      && unchanged(`state, `disconnected, `closing, `shutdowns, `stopListeners)
      && advertisingData == Some(payload) && installed == old(installed) + [payload]
      && advertisementDeferred == !powered && isAdvertising == powered
      && broadcasts == old(broadcasts) + (if powered then [payload] else [])
      && onAir == if powered then Some(payload) else old(onAir)
    }

    /** Nothing is in force; an advertisement on the air is taken off it, and its end awaited. */
    twostate predicate Retracted()
      reads this
    {
      && unchanged(`state, `isAdvertising, `disconnected, `closing, `shutdowns, `installed, `broadcasts)
      && advertisingData.None? && !advertisementDeferred
      && stopListeners == old(stopListeners) + (if isAdvertising then 1 else 0)
      && onAir == if isAdvertising then None else old(onAir)
    }

    method InstallPayload(payload: P)
      modifies this`advertisingData, this`installed, this`advertisementDeferred, this`broadcasts, this`onAir,
               this`isAdvertising
      ensures View() == Install(old(View()), payload)
    {
      advertisingData := Some(payload);
      installed := installed + [payload];
      if state != POWERED_ON {
        if !advertisementDeferred {
          advertisementDeferred := true;
        }
        return;
      }
      advertisementDeferred := false;
      StartBroadcast(payload);
    }

    method RetractAdvertisement()
      modifies this`advertisementDeferred, this`advertisingData, this`onAir, this`stopListeners
      ensures View() == Stop(old(View()))
    {
      advertisementDeferred := false;
      advertisingData := None;
      if isAdvertising {
        onAir := None;
        stopListeners := stopListeners + 1;
      }
    }

    method CallAdvertise(payload: P)
      requires Valid()
      modifies this
      ensures Valid() && history == old(history) + [Advertise(payload)]
      ensures if old(isAdvertising) then Retracted() && waiting == old(waiting) + [Waiting(payload, false)]
              else Installed(payload) && waiting == old(waiting)
      ensures BroadcastsLast(old(View()), View()) && AirInv(View())
    {
      if isAdvertising {
        RetractAdvertisement();
        waiting := waiting + [Waiting(payload, false)];
      } else {
        InstallPayload(payload);
      }
      BroadcastsLatest(history, Advertise(payload));
      Record(Advertise(payload));
      RunKeepsInv(Initial(), history);
    }

    method ResumeAdvertise(i: nat)
      requires Valid() && Enabled(View(), AdvertiseResumes(i))
      modifies this
      ensures Valid() && history == old(history) + [AdvertiseResumes(i)]
      ensures BroadcastsLast(old(View()), View()) && AirInv(View())
      ensures Installed(old(waiting)[i].payload) && waiting == old(waiting)[..i] + old(waiting)[i + 1..]
    {
      var payload := waiting[i].payload;
      waiting := Without(waiting, i);
      isAdvertising := false;
      InstallPayload(payload);
      BroadcastsLatest(history, AdvertiseResumes(i));
      Record(AdvertiseResumes(i));
      RunKeepsInv(Initial(), history);
    }

    method CallStopAdvertising()
      requires Valid()
      modifies this
      ensures Valid() && history == old(history) + [StopAdvertising]
      ensures Retracted() && waiting == old(waiting)
      ensures SilentUntilInstalled(View()) && (Silent(View()) <==> waiting == [])
    {
      RetractAdvertisement();
      StopSilencesUntilInstalled(history);
      Record(StopAdvertising);
      SilentIff(history);
    }

    method OnAdvertisingStop()
      requires Valid()
      modifies this`isAdvertising, this`stopListeners, this`waiting, this`history
      ensures Valid() && history == old(history) + [AdvertisingStopped]
      ensures stopListeners == 0 && isAdvertising == (old(isAdvertising) && old(stopListeners) == 0)
      ensures |waiting| == |old(waiting)| && forall i :: 0 <= i < |waiting| ==>
                                                           waiting[i] == Waiting(old(waiting)[i].payload, true)
    {
      if stopListeners > 0 {
        isAdvertising := false;
        stopListeners := 0;
        waiting := Released(waiting);
      }
      RunKeepsInv(Initial(), history);
      Record(AdvertisingStopped);
    }

    method OnClientDisconnect()
      requires Valid()
      modifies this`isAdvertising, this`history
      ensures Valid() && history == old(history) + [ClientDisconnected]
      ensures !isAdvertising && AirInv(View())
    {
      isAdvertising := false;
      Record(ClientDisconnected);
      RunKeepsInv(Initial(), history);
    }

    method ShutDown()
      modifies this`isAdvertising, this`disconnected, this`onAir, this`shutdowns
      ensures View() == Disconnected(old(View()))
    {
      isAdvertising := false;
      if disconnected {
        return;
      }
      disconnected := true;
      onAir := None;
      shutdowns := shutdowns + 1;
    }

    method CallDisconnect()
      requires Valid()
      modifies this`isAdvertising, this`disconnected, this`onAir, this`shutdowns, this`history
      ensures Valid() && history == old(history) + [Disconnect]
      ensures disconnected && shutdowns == 1 && !isAdvertising
      ensures onAir == if old(disconnected) then old(onAir) else None
    {
      ShutDown();
      Record(Disconnect);
      RunKeepsInv(Initial(), history);
    }

    method CallClose()
      requires Valid()
      modifies this`closing, this`isAdvertising, this`disconnected, this`onAir, this`shutdowns, this`history
      ensures Valid() && history == old(history) + [Close]
      ensures closing && disconnected && shutdowns == 1 && isAdvertising == (old(isAdvertising) && old(closing))
      ensures onAir == if old(disconnected) then old(onAir) else None
      ensures Silent(View()) <==> advertisingData.None? && waiting == []
    {
      RunKeepsInv(Initial(), history);
      if !closing {
        closing := true;
        ShutDown();
      }
      Record(Close);
      RunKeepsInv(Initial(), history);
      SilentIff(history);
    }
  }
}
