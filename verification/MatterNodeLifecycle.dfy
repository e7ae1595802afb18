/**
 The single-flight lifecycle of `MatterNode` (packages/nodejs-shell/src/MatterNode.ts): lazy creation of the controller
 node by `#ensureNode` and the one-time setup of `start`, under any interleaving of callers and failures.

 Each call, each node creation and each run of the start body has a number.  The code between two awaits is one step.
 */
module MatterNodeLifecycle {
  import opened Options

  datatype Progress = Running | Succeeded | Failed

  /** One run of the function assigned to `#nodePromise`; the node it yields carries its number. */
  datatype Creation = Creation(progress: Progress, creator: nat)

  /** What a call of `#ensureNode` stands at; `source` is the creation whose promise it waits for. */
  datatype NodeCall = NodeCall(source: Option<nat>, result: NodeResult)
  datatype NodeResult = Waiting | Got(node: nat) | Threw

  /** One run of the function assigned to `#startPromise`; it first awaits its own call of `#ensureNode`. */
  datatype StartRun = StartRun(stage: Stage, starter: nat, nodeCall: nat)
  datatype Stage = AwaitingNode | Configuring | Completed | Aborted

  datatype StartCall = StartCall(source: Option<nat>, result: StartResult)
  datatype StartResult = Pending | Returned | Rejected

  datatype State = State(
    initialized: bool,
    node: Option<nat>,
    nodePromise: Option<nat>,
    started: bool,
    startPromise: Option<nat>,
    creations: seq<Creation>,
    nodeCalls: seq<NodeCall>,
    starts: seq<StartRun>,
    startCalls: seq<StartCall>)

  datatype Event =
    | Initialize
    | EnsureNode
    | CreationEnds(creation: nat, ok: bool)
    | NodeCallResumes(call: nat)
    | Start
    | BodyGetsNode(run: nat)
    | BodyEnds(run: nat, ok: bool)
    | StartCallResumes(call: nat)

  const INITIAL := State(false, None, None, false, None, [], [], [], [])

  /** A call of `#ensureNode` up to its first await. */
  function CallEnsureNode(s: State): State {
    if s.node.Some? then s.(nodeCalls := s.nodeCalls + [NodeCall(None, Got(s.node.value))])
    else if s.nodePromise.Some? then s.(nodeCalls := s.nodeCalls + [NodeCall(s.nodePromise, Waiting)])
    else if !s.initialized then s.(nodeCalls := s.nodeCalls + [NodeCall(None, Threw)])
    else
      s.(nodePromise := Some(|s.creations|),
         creations := s.creations + [Creation(Running, |s.nodeCalls|)],
         nodeCalls := s.nodeCalls + [NodeCall(Some(|s.creations|), Waiting)])
  }

  function EndCreation(s: State, c: nat, ok: bool): State
    requires c < |s.creations|
  {
    if ok then s.(creations := s.creations[c := s.creations[c].(progress := Succeeded)], node := Some(c))
    else s.(creations := s.creations[c := s.creations[c].(progress := Failed)])
  }

  predicate IsCreator(s: State, call: nat) {
    call < |s.nodeCalls| && s.nodeCalls[call].source.Some? && s.nodeCalls[call].source.value < |s.creations| &&
    s.creations[s.nodeCalls[call].source.value].creator == call
  }

  /** The continuation of a waiting call; the call that made the promise forgets it when it failed. */
  function ResumeNodeCall(s: State, call: nat): State
    requires call < |s.nodeCalls| && s.nodeCalls[call].source.Some?
    requires s.nodeCalls[call].source.value < |s.creations|
  {
    var c := s.nodeCalls[call].source.value;
    if s.creations[c].progress.Succeeded? then
      s.(nodeCalls := s.nodeCalls[call := s.nodeCalls[call].(result := Got(c))])
    else
      s.(nodeCalls := s.nodeCalls[call := s.nodeCalls[call].(result := Threw)],
         nodePromise := if IsCreator(s, call) then None else s.nodePromise)
  }

  /** A call of `start` up to its first await, including the start body up to its own first await. */
  function CallStart(s: State): State {
    if s.started then s.(startCalls := s.startCalls + [StartCall(None, Returned)])
    else if s.startPromise.Some? then s.(startCalls := s.startCalls + [StartCall(s.startPromise, Pending)])
    else
      var s1 := CallEnsureNode(s);
      s1.(startPromise := Some(|s.starts|),
          starts := s.starts + [StartRun(AwaitingNode, |s.startCalls|, |s.nodeCalls|)],
          startCalls := s.startCalls + [StartCall(Some(|s.starts|), Pending)])
  }

  function GetNode(s: State, run: nat): State
    requires run < |s.starts| && s.starts[run].nodeCall < |s.nodeCalls|
  {
    var stage := if s.nodeCalls[s.starts[run].nodeCall].result.Got? then Configuring else Aborted;
    s.(starts := s.starts[run := s.starts[run].(stage := stage)])
  }

  function EndBody(s: State, run: nat, ok: bool): State
    requires run < |s.starts|
  {
    if ok then s.(starts := s.starts[run := s.starts[run].(stage := Completed)], started := true)
    else s.(starts := s.starts[run := s.starts[run].(stage := Aborted)])
  }

  predicate IsStarter(s: State, call: nat) {
    call < |s.startCalls| && s.startCalls[call].source.Some? && s.startCalls[call].source.value < |s.starts| &&
    s.starts[s.startCalls[call].source.value].starter == call
  }

  function ResumeStartCall(s: State, call: nat): State
    requires call < |s.startCalls| && s.startCalls[call].source.Some?
    requires s.startCalls[call].source.value < |s.starts|
  {
    var run := s.startCalls[call].source.value;
    s.(startCalls := s.startCalls[call := s.startCalls[call].(
                                            result := if s.starts[run].stage.Completed? then Returned else Rejected)],
       startPromise := if IsStarter(s, call) then None else s.startPromise)
  }

  predicate InFlight(s: State, run: nat) {
    run < |s.starts| && (s.starts[run].stage.AwaitingNode? || s.starts[run].stage.Configuring?)
  }

  predicate Enabled(s: State, e: Event) {
    match e
    case Initialize => true
    case EnsureNode => true
    case CreationEnds(c, _) => c < |s.creations| && s.creations[c].progress.Running?
    case NodeCallResumes(call) =>
      && call < |s.nodeCalls| && s.nodeCalls[call].result.Waiting? && s.nodeCalls[call].source.Some?
      && s.nodeCalls[call].source.value < |s.creations|
      && !s.creations[s.nodeCalls[call].source.value].progress.Running?
    case Start => true
    case BodyGetsNode(run) =>
      && run < |s.starts| && s.starts[run].stage.AwaitingNode? && s.starts[run].nodeCall < |s.nodeCalls|
      && !s.nodeCalls[s.starts[run].nodeCall].result.Waiting?
    case BodyEnds(run, _) => run < |s.starts| && s.starts[run].stage.Configuring?
    case StartCallResumes(call) =>
      && call < |s.startCalls| && s.startCalls[call].result.Pending? && s.startCalls[call].source.Some?
      && s.startCalls[call].source.value < |s.starts| && !InFlight(s, s.startCalls[call].source.value)
  }

  function Step(s: State, e: Event): State
    requires Enabled(s, e)
  {
    match e
    case Initialize => s.(initialized := true)
    case EnsureNode => CallEnsureNode(s)
    case CreationEnds(c, ok) => EndCreation(s, c, ok)
    case NodeCallResumes(call) => ResumeNodeCall(s, call)
    case Start => CallStart(s)
    case BodyGetsNode(run) => GetNode(s, run)
    case BodyEnds(run, ok) => EndBody(s, run, ok)
    case StartCallResumes(call) => ResumeStartCall(s, call)
  }

  predicate IsRun(s: State, events: seq<Event>)
    decreases |events|
  {
    events == [] || (Enabled(s, events[0]) && IsRun(Step(s, events[0]), events[1..]))
  }

  function Run(s: State, events: seq<Event>): State
    requires IsRun(s, events)
    decreases |events|
  {
    if events == [] then s else Run(Step(s, events[0]), events[1..])
  }

  // ---- Invariant -----------------------------------------------------------------------------------------------

  predicate NodeInv(s: State) {
    && (forall c :: 0 <= c < |s.creations| ==>
          && s.creations[c].creator < |s.nodeCalls|
          && s.nodeCalls[s.creations[c].creator].source == Some(c)
          && (s.creations[c].progress.Running? ==> s.nodeCalls[s.creations[c].creator].result.Waiting?)
          && (s.creations[c].progress.Succeeded? || s.nodeCalls[s.creations[c].creator].result.Waiting? ==>
                s.nodePromise == Some(c))
          && (s.creations[c].progress.Succeeded? ==> s.node == Some(c)))
    && (s.nodePromise.Some? ==>
          && s.nodePromise.value < |s.creations|
          && var c := s.creations[s.nodePromise.value];
             c.progress.Succeeded? || s.nodeCalls[c.creator].result.Waiting?)
    && (s.node.Some? ==> s.node.value < |s.creations| && s.creations[s.node.value].progress.Succeeded?)
    && (forall i :: 0 <= i < |s.nodeCalls| ==>
          && (s.nodeCalls[i].result.Got? ==> s.node == Some(s.nodeCalls[i].result.node))
          && (s.nodeCalls[i].source.Some? ==> s.nodeCalls[i].source.value < |s.creations|))
  }

  predicate StartInv(s: State) {
    && (forall r :: 0 <= r < |s.starts| ==>
          && s.starts[r].starter < |s.startCalls|
          && s.startCalls[s.starts[r].starter].source == Some(r)
          && (InFlight(s, r) ==> s.startCalls[s.starts[r].starter].result.Pending? && !s.started)
          && (s.startCalls[s.starts[r].starter].result.Pending? ==> s.startPromise == Some(r))
          && (s.starts[r].stage.Completed? ==> s.started))
    && (forall r, t :: 0 <= r < t < |s.starts| ==> !(s.starts[r].stage.Completed? && s.starts[t].stage.Completed?))
    && (s.startPromise.Some? ==>
          && s.startPromise.value < |s.starts|
          && s.startCalls[s.starts[s.startPromise.value].starter].result.Pending?)
    && (forall i :: 0 <= i < |s.startCalls| ==>
          && (s.startCalls[i].source.Some? ==> s.startCalls[i].source.value < |s.starts|)
          && (s.startCalls[i].result.Returned? ==> s.started))
  }

  /** A start body configures only a node its call of `#ensureNode` returned. */
  predicate BodyInv(s: State) {
    && (forall r :: 0 <= r < |s.starts| ==>
          && s.starts[r].nodeCall < |s.nodeCalls|
          && (s.starts[r].stage.Configuring? ==> s.nodeCalls[s.starts[r].nodeCall].result.Got?))
    && (s.started ==> s.node.Some?)
  }

  predicate Inv(s: State) { NodeInv(s) && StartInv(s) && BodyInv(s) }

  lemma EnsureNodeKeeps(s: State)
    requires NodeInv(s)
    ensures NodeInv(CallEnsureNode(s))
  {
  }

  lemma EndCreationKeeps(s: State, c: nat, ok: bool)
    requires NodeInv(s) && Enabled(s, CreationEnds(c, ok))
    ensures NodeInv(EndCreation(s, c, ok))
  {
  }

  lemma GotNodeKeeps(s: State, call: nat)
    requires NodeInv(s) && Enabled(s, NodeCallResumes(call))
    requires s.creations[s.nodeCalls[call].source.value].progress.Succeeded?
    ensures NodeInv(ResumeNodeCall(s, call))
  {
  }

  lemma NoNodeKeeps(s: State, call: nat)
    requires NodeInv(s) && Enabled(s, NodeCallResumes(call))
    requires !s.creations[s.nodeCalls[call].source.value].progress.Succeeded?
    ensures NodeInv(ResumeNodeCall(s, call))
  {
  }

  lemma ResumeNodeCallKeeps(s: State, call: nat)
    requires NodeInv(s) && Enabled(s, NodeCallResumes(call))
    ensures NodeInv(ResumeNodeCall(s, call))
  {
    if s.creations[s.nodeCalls[call].source.value].progress.Succeeded? {
      GotNodeKeeps(s, call);
    } else {
      NoNodeKeeps(s, call);
    }
  }

  lemma JoinStartKeepsStart(s: State)
    requires StartInv(s) && (s.started || s.startPromise.Some?)
    ensures StartInv(CallStart(s))
  {
  }

  lemma NewStartKeepsStart(s: State)
    requires StartInv(s) && !s.started && s.startPromise.None?
    ensures StartInv(CallStart(s))
  {
    var s1 := CallEnsureNode(s);
    assert s1.starts == s.starts && s1.startCalls == s.startCalls && s1.started == s.started;
  }

  lemma CallStartKeepsStart(s: State)
    requires StartInv(s)
    ensures StartInv(CallStart(s))
  {
    if s.started || s.startPromise.Some? {
      JoinStartKeepsStart(s);
    } else {
      NewStartKeepsStart(s);
    }
  }

  lemma SameNodes(s: State, s': State)
    requires NodeInv(s) && s'.initialized == s.initialized && s'.node == s.node && s'.nodePromise == s.nodePromise
    requires s'.creations == s.creations && s'.nodeCalls == s.nodeCalls
    ensures NodeInv(s')
  {
  }

  lemma CallStartKeepsNode(s: State)
    requires NodeInv(s)
    ensures NodeInv(CallStart(s))
  {
    if s.started || s.startPromise.Some? {
      SameNodes(s, CallStart(s));
    } else {
      EnsureNodeKeeps(s);
      SameNodes(CallEnsureNode(s), CallStart(s));
    }
  }

  lemma CallStartKeepsBody(s: State)
    requires BodyInv(s)
    ensures BodyInv(CallStart(s))
  {
    var s1 := CallEnsureNode(s);
    assert |s1.nodeCalls| == |s.nodeCalls| + 1 && s1.node == s.node && s1.starts == s.starts;
    assert forall i :: 0 <= i < |s.nodeCalls| ==> s1.nodeCalls[i] == s.nodeCalls[i];
  }

  lemma GetNodeKeeps(s: State, run: nat)
    requires StartInv(s) && Enabled(s, BodyGetsNode(run))
    ensures StartInv(GetNode(s, run))
  {
    assert InFlight(s, run);
    assert forall r :: 0 <= r < |s.starts| && InFlight(GetNode(s, run), r) ==> InFlight(s, r);
  }

  lemma EndBodyKeeps(s: State, run: nat, ok: bool)
    requires StartInv(s) && Enabled(s, BodyEnds(run, ok))
    ensures StartInv(EndBody(s, run, ok))
  {
    assert InFlight(s, run);
    assert forall r :: 0 <= r < |s.starts| && InFlight(EndBody(s, run, ok), r) ==> InFlight(s, r) && r != run;
  }

  lemma ResumeStartCallKeeps(s: State, call: nat)
    requires StartInv(s) && Enabled(s, StartCallResumes(call))
    ensures StartInv(ResumeStartCall(s, call))
  {
    assert forall r :: 0 <= r < |s.starts| && InFlight(ResumeStartCall(s, call), r) ==> InFlight(s, r);
  }

  lemma StepKeepsNode(s: State, e: Event)
    requires NodeInv(s) && Enabled(s, e)
    ensures NodeInv(Step(s, e))
  {
    match e
    case EnsureNode => EnsureNodeKeeps(s);
    case CreationEnds(c, ok) => EndCreationKeeps(s, c, ok);
    case NodeCallResumes(call) => ResumeNodeCallKeeps(s, call);
    case Start => CallStartKeepsNode(s);
    case _ =>
  }

  lemma SameStarts(s: State, s': State)
    requires StartInv(s) && s'.starts == s.starts && s'.startCalls == s.startCalls
    requires s'.startPromise == s.startPromise && s'.started == s.started
    ensures StartInv(s')
  {
    assert forall r :: 0 <= r < |s.starts| && InFlight(s', r) ==> InFlight(s, r);
  }

  lemma StepKeepsStart(s: State, e: Event)
    requires StartInv(s) && Enabled(s, e)
    ensures StartInv(Step(s, e))
  {
    match e
    case Initialize => SameStarts(s, Step(s, e));
    case EnsureNode => SameStarts(s, Step(s, e));
    case CreationEnds(_, _) => SameStarts(s, Step(s, e));
    case NodeCallResumes(_) => SameStarts(s, Step(s, e));
    case Start => CallStartKeepsStart(s);
    case BodyGetsNode(run) => GetNodeKeeps(s, run);
    case BodyEnds(run, ok) => EndBodyKeeps(s, run, ok);
    case StartCallResumes(call) => ResumeStartCallKeeps(s, call);
  }

  lemma EndBodyKeepsBody(s: State, run: nat, ok: bool)
    requires BodyInv(s) && NodeInv(s) && Enabled(s, BodyEnds(run, ok))
    ensures BodyInv(EndBody(s, run, ok))
  {
    assert s.nodeCalls[s.starts[run].nodeCall].result.Got?;
  }

  lemma EnsureNodeKeepsBody(s: State)
    requires BodyInv(s)
    ensures BodyInv(CallEnsureNode(s))
  {
    var s1 := CallEnsureNode(s);
    assert forall i :: 0 <= i < |s.nodeCalls| ==> s1.nodeCalls[i] == s.nodeCalls[i];
  }

  lemma ResumeNodeCallKeepsBody(s: State, call: nat)
    requires BodyInv(s) && Enabled(s, NodeCallResumes(call))
    ensures BodyInv(ResumeNodeCall(s, call))
  {
  }

  lemma GetNodeKeepsBody(s: State, run: nat)
    requires BodyInv(s) && Enabled(s, BodyGetsNode(run))
    ensures BodyInv(GetNode(s, run))
  {
  }

  lemma StepKeepsBody(s: State, e: Event)
    requires BodyInv(s) && NodeInv(s) && Enabled(s, e)
    ensures BodyInv(Step(s, e))
  {
    match e
    case Initialize =>
    case EnsureNode => EnsureNodeKeepsBody(s);
    case CreationEnds(_, _) =>
    case NodeCallResumes(call) => ResumeNodeCallKeepsBody(s, call);
    case Start => CallStartKeepsBody(s);
    case BodyGetsNode(run) => GetNodeKeepsBody(s, run);
    case BodyEnds(run, ok) => EndBodyKeepsBody(s, run, ok);
    case StartCallResumes(_) =>
  }

  lemma {:induction false} RunKeepsInv(s: State, events: seq<Event>)
    requires Inv(s) && IsRun(s, events)
    ensures Inv(Run(s, events))
    decreases |events|
  {
    if events != [] {
      StepKeepsNode(s, events[0]);
      StepKeepsStart(s, events[0]);
      StepKeepsBody(s, events[0]);
      RunKeepsInv(Step(s, events[0]), events[1..]);
    }
  }

  // ---- How calls end -------------------------------------------------------------------------------------------

  /** A call that waits for a creation ends as the creation does: with its node, or with its error. */
  predicate EndsAsCreation(s: State, i: nat)
    requires i < |s.nodeCalls|
  {
    var call := s.nodeCalls[i];
    if call.source.None? then !call.result.Waiting?
    else
      var c := call.source.value;
      && c < |s.creations|
      && s.creations[c].creator <= i
      && (call.result.Waiting? ||
          if s.creations[c].progress.Succeeded? then call.result == Got(c)
          else s.creations[c].progress.Failed? && call.result.Threw?)
  }

  /** A call that waits for a start body returns when the body completes and throws when it is aborted. */
  predicate EndsAsBody(s: State, i: nat)
    requires i < |s.startCalls|
  {
    var call := s.startCalls[i];
    if call.source.None? then call.result.Returned?
    else
      var r := call.source.value;
      && r < |s.starts|
      && s.starts[r].starter <= i
      && (call.result.Pending? ||
          if s.starts[r].stage.Completed? then call.result.Returned?
          else s.starts[r].stage.Aborted? && call.result.Rejected?)
  }

  /** A body waits for its call of `#ensureNode` and gets past it only with a node. */
  predicate FollowsNodeCall(s: State, r: nat)
    requires r < |s.starts|
  {
    var run := s.starts[r];
    && run.nodeCall < |s.nodeCalls|
    && (run.stage.Configuring? || run.stage.Completed? ==> s.nodeCalls[run.nodeCall].result.Got?)
    && (run.stage.Aborted? ==> !s.nodeCalls[run.nodeCall].result.Waiting?)
  }

  predicate NodeCallsEnd(s: State) { forall i :: 0 <= i < |s.nodeCalls| ==> EndsAsCreation(s, i) }

  predicate StartCallsEnd(s: State) { forall i :: 0 <= i < |s.startCalls| ==> EndsAsBody(s, i) }

  predicate BodiesFollow(s: State) { forall r :: 0 <= r < |s.starts| ==> FollowsNodeCall(s, r) }

  predicate SomeCompleted(s: State) { exists r :: 0 <= r < |s.starts| && s.starts[r].stage.Completed? }

  predicate SomeSucceeded(s: State) { exists c :: 0 <= c < |s.creations| && s.creations[c].progress.Succeeded? }

  predicate Outcomes(s: State) {
    && NodeCallsEnd(s) && StartCallsEnd(s) && BodiesFollow(s)
    && (s.started <==> SomeCompleted(s)) && (s.node.Some? <==> SomeSucceeded(s))
  }

  /** Creations that end as before, and calls that are added or settled as their creation ended. */
  lemma NodeCallsGrow(s: State, s': State)
    requires NodeCallsEnd(s) && |s.nodeCalls| <= |s'.nodeCalls| && |s.creations| <= |s'.creations|
    requires forall i :: |s.nodeCalls| <= i < |s'.nodeCalls| ==> EndsAsCreation(s', i)
    requires forall i :: 0 <= i < |s.nodeCalls| ==> s'.nodeCalls[i] == s.nodeCalls[i] || EndsAsCreation(s', i)
    requires forall c :: 0 <= c < |s.creations| ==>
               s'.creations[c].creator == s.creations[c].creator &&
               (s.creations[c].progress.Running? || s'.creations[c].progress == s.creations[c].progress)
    ensures NodeCallsEnd(s')
  {
    forall i | 0 <= i < |s'.nodeCalls| ensures EndsAsCreation(s', i) {
      if i < |s.nodeCalls| {
        assert EndsAsCreation(s, i);
      }
    }
  }

  lemma StartCallsGrow(s: State, s': State)
    requires StartCallsEnd(s) && |s.startCalls| <= |s'.startCalls| && |s.starts| <= |s'.starts|
    requires forall i :: |s.startCalls| <= i < |s'.startCalls| ==> EndsAsBody(s', i)
    requires forall i :: 0 <= i < |s.startCalls| ==> s'.startCalls[i] == s.startCalls[i] || EndsAsBody(s', i)
    requires forall r :: 0 <= r < |s.starts| ==>
               s'.starts[r].starter == s.starts[r].starter &&
               (InFlight(s, r) || s'.starts[r].stage == s.starts[r].stage)
    ensures StartCallsEnd(s')
  {
    forall i | 0 <= i < |s'.startCalls| ensures EndsAsBody(s', i) {
      if i < |s.startCalls| {
        assert EndsAsBody(s, i);
      }
    }
  }

  lemma ResumedNodeCallEnds(s: State, call: nat)
    requires NodeCallsEnd(s) && Enabled(s, NodeCallResumes(call))
    ensures NodeCallsEnd(ResumeNodeCall(s, call))
  {
    assert EndsAsCreation(s, call);
    assert EndsAsCreation(ResumeNodeCall(s, call), call);
    NodeCallsGrow(s, ResumeNodeCall(s, call));
  }

  lemma EnsureNodeEnds(s: State)
    requires NodeInv(s) && NodeCallsEnd(s)
    ensures NodeCallsEnd(CallEnsureNode(s))
  {
    NodeCallsGrow(s, CallEnsureNode(s));
  }

  lemma StepEndsNodeCalls(s: State, e: Event)
    requires NodeInv(s) && NodeCallsEnd(s) && Enabled(s, e)
    ensures NodeCallsEnd(Step(s, e))
  {
    match e
    case EnsureNode => EnsureNodeEnds(s);
    case Start =>
      EnsureNodeEnds(s);
      NodeCallsGrow(if s.started || s.startPromise.Some? then s else CallEnsureNode(s), Step(s, e));
    case NodeCallResumes(call) => ResumedNodeCallEnds(s, call);
    case CreationEnds(_, _) => NodeCallsGrow(s, Step(s, e));
    case _ => NodeCallsGrow(s, Step(s, e));
  }

  lemma ResumedStartCallEnds(s: State, call: nat)
    requires StartCallsEnd(s) && Enabled(s, StartCallResumes(call))
    ensures StartCallsEnd(ResumeStartCall(s, call))
  {
    assert EndsAsBody(s, call);
    assert EndsAsBody(ResumeStartCall(s, call), call);
    StartCallsGrow(s, ResumeStartCall(s, call));
  }

  lemma StepEndsStartCalls(s: State, e: Event)
    requires StartInv(s) && StartCallsEnd(s) && Enabled(s, e)
    ensures StartCallsEnd(Step(s, e))
  {
    match e
    case StartCallResumes(call) => ResumedStartCallEnds(s, call);
    case _ => StartCallsGrow(s, Step(s, e));
  }

  lemma StepFollowsNodeCalls(s: State, e: Event)
    requires BodiesFollow(s) && Enabled(s, e)
    ensures BodiesFollow(Step(s, e))
  {
    var s' := Step(s, e);
    assert forall i :: 0 <= i < |s.nodeCalls| ==>
        i < |s'.nodeCalls| && (s.nodeCalls[i].result.Waiting? || s'.nodeCalls[i] == s.nodeCalls[i]);
    forall r | 0 <= r < |s'.starts| ensures FollowsNodeCall(s', r) {
      if r < |s.starts| {
        assert FollowsNodeCall(s, r);
      }
    }
  }

  lemma StepStartsWhenCompleted(s: State, e: Event)
    requires Enabled(s, e) && (s.started <==> SomeCompleted(s))
    ensures Step(s, e).started <==> SomeCompleted(Step(s, e))
  {
    var s' := Step(s, e);
    if SomeCompleted(s) {
      var r :| 0 <= r < |s.starts| && s.starts[r].stage.Completed?;
      assert s'.starts[r].stage.Completed?;
    }
    if SomeCompleted(s') {
      var r :| 0 <= r < |s'.starts| && s'.starts[r].stage.Completed?;
      assert e.BodyEnds? || s.starts[r].stage.Completed?;
    }
    if s'.started && !s.started {
      assert s'.starts[e.run].stage.Completed?;
    }
  }

  lemma StepHasNodeWhenSucceeded(s: State, e: Event)
    requires Enabled(s, e) && (s.node.Some? <==> SomeSucceeded(s))
    ensures Step(s, e).node.Some? <==> SomeSucceeded(Step(s, e))
  {
    var s' := Step(s, e);
    if SomeSucceeded(s) {
      var c :| 0 <= c < |s.creations| && s.creations[c].progress.Succeeded?;
      assert s'.creations[c].progress.Succeeded?;
    }
    if SomeSucceeded(s') {
      var c :| 0 <= c < |s'.creations| && s'.creations[c].progress.Succeeded?;
      assert e.CreationEnds? || s.creations[c].progress.Succeeded?;
    }
    if s'.node.Some? && s.node.None? {
      assert s'.creations[e.creation].progress.Succeeded?;
    }
  }

  lemma {:induction false} RunKeepsOutcomes(s: State, events: seq<Event>)
    requires Inv(s) && Outcomes(s) && IsRun(s, events)
    ensures Outcomes(Run(s, events))
    decreases |events|
  {
    if events != [] {
      StepKeepsNode(s, events[0]);
      StepKeepsStart(s, events[0]);
      StepKeepsBody(s, events[0]);
      StepEndsNodeCalls(s, events[0]);
      StepEndsStartCalls(s, events[0]);
      StepFollowsNodeCalls(s, events[0]);
      StepStartsWhenCompleted(s, events[0]);
      StepHasNodeWhenSucceeded(s, events[0]);
      RunKeepsOutcomes(Step(s, events[0]), events[1..]);
    }
  }

  // ---- Theorems ------------------------------------------------------------------------------------------------

  /**
   In every run each call ends as what it waited for ended, each body follows its call of `#ensureNode`, and the flag
   and the node are there exactly when a body has completed and a creation has succeeded.
   */
  lemma CallsEndAsAwaited(events: seq<Event>)
    requires IsRun(INITIAL, events)
    ensures Outcomes(Run(INITIAL, events))
  {
    RunKeepsOutcomes(INITIAL, events);
  }

  /** A start call that waited returned exactly if its body completed, and was rejected exactly if that was aborted. */
  lemma StartResultIff(events: seq<Event>, i: nat)
    requires IsRun(INITIAL, events) && i < |Run(INITIAL, events).startCalls|
    requires !Run(INITIAL, events).startCalls[i].result.Pending?
    ensures var s := Run(INITIAL, events);
            var call := s.startCalls[i];
            if call.source.None? then call.result.Returned?
            else call.source.value < |s.starts| &&
                 (call.result.Returned? <==> s.starts[call.source.value].stage.Completed?) &&
                 (call.result.Rejected? <==> s.starts[call.source.value].stage.Aborted?)
  {
    CallsEndAsAwaited(events);
    assert EndsAsBody(Run(INITIAL, events), i);
  }

  /** A node call that waited got the node of its creation exactly if that succeeded, and threw exactly if it failed. */
  lemma NodeResultIff(events: seq<Event>, i: nat)
    requires IsRun(INITIAL, events) && i < |Run(INITIAL, events).nodeCalls|
    requires !Run(INITIAL, events).nodeCalls[i].result.Waiting?
    requires Run(INITIAL, events).nodeCalls[i].source.Some?
    ensures var s := Run(INITIAL, events);
            var call := s.nodeCalls[i];
            var c := call.source.value;
            && c < |s.creations|
            && (call.result == Got(c) <==> s.creations[c].progress.Succeeded?)
            && (call.result.Threw? <==> s.creations[c].progress.Failed?)
  {
    CallsEndAsAwaited(events);
    assert EndsAsCreation(Run(INITIAL, events), i);
  }

  /** Nobody waits in vain: a call that waits can be resumed, or what it waits for can go on. */
  lemma WaitersAreServed(events: seq<Event>, i: nat, j: nat)
    requires IsRun(INITIAL, events)
    ensures var s := Run(INITIAL, events);
            && (i < |s.nodeCalls| && s.nodeCalls[i].result.Waiting? ==>
                  && s.nodeCalls[i].source.Some?
                  && (Enabled(s, NodeCallResumes(i)) || Enabled(s, CreationEnds(s.nodeCalls[i].source.value, true))))
            && (j < |s.startCalls| && s.startCalls[j].result.Pending? ==>
                  && s.startCalls[j].source.Some?
                  && var r := s.startCalls[j].source.value;
                     || Enabled(s, StartCallResumes(j))
                     || Enabled(s, BodyEnds(r, true))
                     || Enabled(s, BodyGetsNode(r))
                     || (r < |s.starts| && s.starts[r].nodeCall < |s.nodeCalls| &&
                         s.nodeCalls[s.starts[r].nodeCall].result.Waiting?))
  {
    var s := Run(INITIAL, events);
    CallsEndAsAwaited(events);
    if i < |s.nodeCalls| {
      assert EndsAsCreation(s, i);
    }
    if j < |s.startCalls| {
      assert EndsAsBody(s, j);
      if s.startCalls[j].source.Some? {
        assert FollowsNodeCall(s, s.startCalls[j].source.value);
      }
    }
  }

  /** At most one node creation is in flight, and at most one creation ever succeeds. */
  lemma OneCreationAtATime(events: seq<Event>, c: nat, d: nat)
    requires IsRun(INITIAL, events)
    requires c < |Run(INITIAL, events).creations| && d < |Run(INITIAL, events).creations|
    requires !Run(INITIAL, events).creations[c].progress.Failed? && !Run(INITIAL, events).creations[d].progress.Failed?
    ensures c == d
  {
    RunKeepsInv(INITIAL, events);
  }

  /** At most one start body is in flight, at most one ever completes, and none runs once one has completed. */
  lemma OneStartAtATime(events: seq<Event>, r: nat, t: nat)
    requires IsRun(INITIAL, events)
    requires r < |Run(INITIAL, events).starts| && t < |Run(INITIAL, events).starts|
    requires !Run(INITIAL, events).starts[r].stage.Aborted? && !Run(INITIAL, events).starts[t].stage.Aborted?
    ensures r == t
  {
    RunKeepsInv(INITIAL, events);
    var s := Run(INITIAL, events);
    assert InFlight(s, r) || s.starts[r].stage.Completed?;
    assert InFlight(s, t) || s.starts[t].stage.Completed?;
  }

  /** Every caller that got a node got the same one, the one the field holds. */
  lemma CallersShareOneNode(events: seq<Event>, i: nat, j: nat)
    requires IsRun(INITIAL, events)
    requires i < |Run(INITIAL, events).nodeCalls| && Run(INITIAL, events).nodeCalls[i].result.Got?
    requires j < |Run(INITIAL, events).nodeCalls| && Run(INITIAL, events).nodeCalls[j].result.Got?
    ensures Run(INITIAL, events).nodeCalls[i].result == Run(INITIAL, events).nodeCalls[j].result
    ensures Run(INITIAL, events).node == Some(Run(INITIAL, events).nodeCalls[i].result.node)
  {
    RunKeepsInv(INITIAL, events);
  }

  /** A `start` that returned left a started node behind. */
  lemma ReturnedMeansStarted(events: seq<Event>, i: nat)
    requires IsRun(INITIAL, events)
    requires i < |Run(INITIAL, events).startCalls| && Run(INITIAL, events).startCalls[i].result.Returned?
    ensures Run(INITIAL, events).started && Run(INITIAL, events).node.Some?
  {
    RunKeepsInv(INITIAL, events);
  }

  /** A body that configures the node has one, and nothing has been started before. */
  lemma ConfiguringHasNode(events: seq<Event>, run: nat)
    requires IsRun(INITIAL, events) && run < |Run(INITIAL, events).starts|
    requires Run(INITIAL, events).starts[run].stage.Configuring?
    ensures !Run(INITIAL, events).started && Run(INITIAL, events).node.Some?
  {
    RunKeepsInv(INITIAL, events);
    assert InFlight(Run(INITIAL, events), run);
  }

  /** A body goes on exactly if its call of `#ensureNode` got a node, and is aborted exactly if that threw. */
  lemma BodyGoesOnIff(events: seq<Event>, run: nat)
    requires IsRun(INITIAL, events) && Enabled(Run(INITIAL, events), BodyGetsNode(run))
    ensures var s := Run(INITIAL, events);
            var result := s.nodeCalls[s.starts[run].nodeCall].result;
            var stage := Step(s, BodyGetsNode(run)).starts[run].stage;
            (stage.Configuring? <==> result.Got?) && (stage.Aborted? <==> result.Threw?)
  {
  }

  /** Clean-up after a failed creation forgets the promise of that creation and no other. */
  lemma NodeCleanupForgetsItself(events: seq<Event>, call: nat)
    requires IsRun(INITIAL, events) && Enabled(Run(INITIAL, events), NodeCallResumes(call))
    ensures var s := Run(INITIAL, events);
            var s' := Step(s, NodeCallResumes(call));
            var c := s.nodeCalls[call].source.value;
            && (s.creations[c].creator == call ==> s.nodePromise == Some(c))
            && s'.nodePromise ==
               (if s.creations[c].creator == call && s.creations[c].progress.Failed? then None else s.nodePromise)
            && (forall d :: 0 <= d < |s.creations| && s.creations[d].progress.Running? ==> s'.nodePromise == Some(d))
  {
    RunKeepsInv(INITIAL, events);
  }

  /** The `finally` of `start` forgets the promise of its own run and no other. */
  lemma StartCleanupForgetsItself(events: seq<Event>, call: nat)
    requires IsRun(INITIAL, events) && Enabled(Run(INITIAL, events), StartCallResumes(call))
    ensures var s := Run(INITIAL, events);
            var s' := Step(s, StartCallResumes(call));
            var r := s.startCalls[call].source.value;
            && (s.starts[r].starter == call ==> s.startPromise == Some(r))
            && s'.startPromise == (if s.starts[r].starter == call then None else s.startPromise)
            && (forall t :: 0 <= t < |s.starts| && InFlight(s, t) ==> s'.startPromise == Some(t))
  {
    RunKeepsInv(INITIAL, events);
  }

  /** A failure is not sticky: once its creator has resumed, the next call creates the node anew. */
  lemma FailedCreationIsRetried(events: seq<Event>)
    requires IsRun(INITIAL, events) && Run(INITIAL, events).initialized
    requires var s := Run(INITIAL, events);
             forall c :: 0 <= c < |s.creations| ==>
               s.creations[c].progress.Failed? && s.creations[c].creator < |s.nodeCalls| &&
               !s.nodeCalls[s.creations[c].creator].result.Waiting?
    ensures var s := Run(INITIAL, events);
            var s' := CallEnsureNode(s);
            && |s'.creations| == |s.creations| + 1 && s'.creations[|s.creations|].progress.Running?
            && s'.nodePromise == Some(|s.creations|)
  {
    RunKeepsInv(INITIAL, events);
  }

  /** Nor is a failed start: once its starter has resumed, the next call runs a new body. */
  lemma FailedStartIsRetried(events: seq<Event>)
    requires IsRun(INITIAL, events)
    requires var s := Run(INITIAL, events);
             forall r :: 0 <= r < |s.starts| ==>
               s.starts[r].stage.Aborted? && s.starts[r].starter < |s.startCalls| &&
               !s.startCalls[s.starts[r].starter].result.Pending?
    ensures var s := Run(INITIAL, events);
            var s' := CallStart(s);
            && |s'.starts| == |s.starts| + 1 && s'.starts[|s.starts|].stage.AwaitingNode?
            && s'.startPromise == Some(|s.starts|)
            && |s'.startCalls| == |s.startCalls| + 1
            && s'.startCalls[|s.startCalls|] == StartCall(s'.startPromise, Pending)
  {
    RunKeepsInv(INITIAL, events);
    CallsEndAsAwaited(events);
  }

  /** The node, once there, and the started flag never go away again. */
  lemma {:induction false} NodeAndStartPersist(s: State, events: seq<Event>)
    requires Inv(s) && IsRun(s, events)
    ensures s.node.Some? ==> Run(s, events).node == s.node
    ensures s.started ==> Run(s, events).started && |Run(s, events).starts| == |s.starts|
    decreases |events|
  {
    if events != [] {
      StepKeepsNode(s, events[0]);
      StepKeepsStart(s, events[0]);
      StepKeepsBody(s, events[0]);
      StepKeepsNodeAndStart(s, events[0]);
      NodeAndStartPersist(Step(s, events[0]), events[1..]);
    }
  }

  lemma StepKeepsNodeAndStart(s: State, e: Event)
    requires NodeInv(s) && Enabled(s, e)
    ensures s.node.Some? ==> Step(s, e).node == s.node
    ensures s.started ==> Step(s, e).started && |Step(s, e).starts| == |s.starts|
  {
  }

  // ---- The object ----------------------------------------------------------------------------------------------

  lemma {:induction false} RunSnoc(s: State, run: seq<Event>, e: Event)
    requires IsRun(s, run) && Enabled(Run(s, run), e)
    ensures IsRun(s, run + [e]) && Run(s, run + [e]) == Step(Run(s, run), e)
    decreases |run|
  {
    if run == [] {
      assert run + [e] == [e] && [e][1..] == [];
    } else {
      assert (run + [e])[1..] == run[1..] + [e];
      RunSnoc(Step(s, run[0]), run[1..], e);
    }
  }

  predicate Live(s: State, c: nat) { c < |s.creations| && !s.creations[c].progress.Failed? }

  predicate Alive(s: State, r: nat) { r < |s.starts| && !s.starts[r].stage.Aborted? }

  /** At most one creation, and at most one start body, is in flight or has succeeded. */
  predicate SingleFlight(s: State) {
    && (forall c, d :: 0 <= c < d < |s.creations| ==> !(Live(s, c) && Live(s, d)))
    && (forall r, t :: 0 <= r < t < |s.starts| ==> !(Alive(s, r) && Alive(s, t)))
  }

  lemma RunIsSingleFlight(run: seq<Event>)
    requires IsRun(INITIAL, run)
    ensures SingleFlight(Run(INITIAL, run))
  {
    var s := Run(INITIAL, run);
    forall c, d | 0 <= c < d < |s.creations| ensures !(Live(s, c) && Live(s, d)) {
      if Live(s, c) && Live(s, d) {
        OneCreationAtATime(run, c, d);
      }
    }
    forall r, t | 0 <= r < t < |s.starts| ensures !(Alive(s, r) && Alive(s, t)) {
      if Alive(s, r) && Alive(s, t) {
        OneStartAtATime(run, r, t);
      }
    }
  }

  /** The lifecycle fields of `MatterNode`, with the code between two awaits as methods that update them. */
  class MatterNode {
    var initialized: bool
    var node: Option<nat>
    var nodePromise: Option<nat>
    var started: bool
    var startPromise: Option<nat>
    var creations: seq<Creation>
    var nodeCalls: seq<NodeCall>
    var starts: seq<StartRun>
    var startCalls: seq<StartCall>
    ghost var history: seq<Event>

    function View(): State
      reads this
    {
      State(initialized, node, nodePromise, started, startPromise, creations, nodeCalls, starts, startCalls)
    }

    /** The object is in a state that a run reaches. */
    ghost predicate Valid()
      reads this
    {
      IsRun(INITIAL, history) && View() == Run(INITIAL, history)
    }

    ghost method Record(e: Event)
      requires IsRun(INITIAL, history) && Enabled(Run(INITIAL, history), e)
      requires View() == Step(Run(INITIAL, history), e)
      modifies this`history
      ensures Valid() && history == old(history) + [e]
    {
      RunSnoc(INITIAL, history, e);
      history := history + [e];
    }

    constructor ()
      ensures Valid() && history == []
    {
      initialized, node, nodePromise, started, startPromise := false, None, None, false, None;
      creations, nodeCalls, starts, startCalls, history := [], [], [], [], [];
    }

    method SetInitialized()
      requires Valid()
      modifies this`initialized, this`history
      ensures Valid() && history == old(history) + [Initialize]
      ensures initialized
    {
      initialized := true;
      Record(Initialize);
    }

    /**
     A call has entered `#ensureNode`: it has the node at once if there is one, waits for the creation in flight if
     there is one, throws if the controller is not initialized, and begins a creation otherwise.
     */
    twostate predicate Joined(call: nat)
      reads this
    {
      && call == |old(nodeCalls)| && |nodeCalls| == call + 1 && nodeCalls[..call] == old(nodeCalls)
      && if old(node).Some? then
           nodeCalls[call] == NodeCall(None, Got(old(node).value)) && unchanged(`creations, `nodePromise)
         else if old(nodePromise).Some? then
           nodeCalls[call] == NodeCall(old(nodePromise), Waiting) && unchanged(`creations, `nodePromise)
         else if !old(initialized) then
           nodeCalls[call] == NodeCall(None, Threw) && unchanged(`creations, `nodePromise)
         else
           && nodeCalls[call] == NodeCall(Some(|old(creations)|), Waiting)
           && nodePromise == Some(|old(creations)|)
           && creations == old(creations) + [Creation(Running, call)]
    }

    /** `#ensureNode` up to its await; `start` calls it too. */
    method JoinCreation() returns (call: nat)
      modifies this`nodePromise, this`creations, this`nodeCalls
      ensures View() == CallEnsureNode(old(View()))
      ensures Joined(call)
    {
      call := |nodeCalls|;
      if node.Some? {
        nodeCalls := nodeCalls + [NodeCall(None, Got(node.value))];
        return;
      }
      if nodePromise.Some? {
        nodeCalls := nodeCalls + [NodeCall(nodePromise, Waiting)];
        return;
      }
      if !initialized {
        nodeCalls := nodeCalls + [NodeCall(None, Threw)];
        return;
      }
      nodePromise := Some(|creations|);
      creations := creations + [Creation(Running, call)];
      nodeCalls := nodeCalls + [NodeCall(nodePromise, Waiting)];
    }

    method EnterEnsureNode() returns (call: nat)
      requires Valid()
      modifies this`nodePromise, this`creations, this`nodeCalls, this`history
      ensures Valid() && history == old(history) + [EnsureNode]
      ensures Joined(call) && SingleFlight(View())
    {
      call := JoinCreation();
      Record(EnsureNode);
      RunIsSingleFlight(history);
      RunKeepsInv(INITIAL, history);
    }

    method OnCreationEnded(creation: nat, ok: bool)
      requires Valid() && Enabled(View(), CreationEnds(creation, ok))
      modifies this`creations, this`node, this`history
      ensures Valid() && history == old(history) + [CreationEnds(creation, ok)]
      ensures ok ==> node == Some(creation) && old(node).None?
      ensures !ok ==> node == old(node)
      ensures creations == old(creations)[creation := Creation(if ok then Succeeded else Failed,
                                                               old(creations)[creation].creator)]
    {
      if ok {
        creations := creations[creation := creations[creation].(progress := Succeeded)];
        node := Some(creation);
      } else {
        creations := creations[creation := creations[creation].(progress := Failed)];
      }
      RunKeepsInv(INITIAL, history);
      StepKeepsNodeAndStart(Run(INITIAL, history), CreationEnds(creation, ok));
      Record(CreationEnds(creation, ok));
    }

    /** The caller gets the node of the creation or its error; the creator of a failed one forgets the promise. */
    method ResumeEnsureNode(call: nat)
      requires Valid() && Enabled(View(), NodeCallResumes(call))
      modifies this`nodePromise, this`nodeCalls, this`history
      ensures Valid() && history == old(history) + [NodeCallResumes(call)]
      ensures var c := old(nodeCalls)[call].source.value;
              && c < |creations| && call < |nodeCalls|
              && nodeCalls == old(nodeCalls)[call := NodeCall(Some(c), nodeCalls[call].result)]
              && (nodeCalls[call].result == Got(c) <==> creations[c].progress.Succeeded?)
              && (nodeCalls[call].result.Threw? <==> creations[c].progress.Failed?)
              && nodePromise ==
                 (if creations[c].creator == call && creations[c].progress.Failed? then None else old(nodePromise))
      ensures nodeCalls[call].result.Got? ==> node == Some(nodeCalls[call].result.node)
      ensures forall c :: 0 <= c < |creations| && creations[c].progress.Running? ==> nodePromise == Some(c)
    {
      var creation := nodeCalls[call].source.value;
      if creations[creation].progress.Succeeded? {
        nodeCalls := nodeCalls[call := nodeCalls[call].(result := Got(creation))];
      } else {
        if creations[creation].creator == call {
          nodePromise := None;
        }
        nodeCalls := nodeCalls[call := nodeCalls[call].(result := Threw)];
      }
      NodeCleanupForgetsItself(history, call);
      Record(NodeCallResumes(call));
      RunKeepsInv(INITIAL, history);
    }

    /** A call returns at once once started, waits for the body in flight if there is one, and runs one otherwise. */
    method EnterStart() returns (call: nat)
      requires Valid()
      modifies this`nodePromise, this`creations, this`nodeCalls, this`startPromise, this`starts, this`startCalls
      modifies this`history
      ensures Valid() && history == old(history) + [Start]
      ensures SingleFlight(View())
      ensures call == |old(startCalls)| && |startCalls| == call + 1 && startCalls[..call] == old(startCalls)
      ensures if old(started) || old(startPromise).Some?
              then unchanged(`nodePromise, `creations, `nodeCalls, `startPromise, `starts)
              else Joined(|old(nodeCalls)|) && startPromise == Some(|old(starts)|) &&
                   starts == old(starts) + [StartRun(AwaitingNode, call, |old(nodeCalls)|)]
      ensures startCalls[call] == if old(started) then StartCall(None, Returned) else StartCall(startPromise, Pending)
    {
      call := |startCalls|;
      if started {
        startCalls := startCalls + [StartCall(None, Returned)];
      } else if startPromise.Some? {
        startCalls := startCalls + [StartCall(startPromise, Pending)];
      } else {
        var nodeCall := JoinCreation();
        startPromise := Some(|starts|);
        starts := starts + [StartRun(AwaitingNode, call, nodeCall)];
        startCalls := startCalls + [StartCall(startPromise, Pending)];
      }
      Record(Start);
      RunIsSingleFlight(history);
    }

    /** A body goes on exactly if its call of `#ensureNode` got a node, and is aborted otherwise. */
    method OnBodyGotNode(run: nat)
      requires Valid() && Enabled(View(), BodyGetsNode(run))
      modifies this`starts, this`history
      ensures Valid() && history == old(history) + [BodyGetsNode(run)]
      ensures var was := old(starts)[run];
              && run < |starts|
              && starts == old(starts)[run := StartRun(starts[run].stage, was.starter, was.nodeCall)]
              && was.nodeCall < |nodeCalls|
              && (starts[run].stage.Configuring? <==> nodeCalls[was.nodeCall].result.Got?)
              && (starts[run].stage.Aborted? <==> nodeCalls[was.nodeCall].result.Threw?)
      ensures starts[run].stage.Configuring? ==> node.Some?
    {
      var stage := Aborted;
      if nodeCalls[starts[run].nodeCall].result.Got? {
        stage := Configuring;
      }
      starts := starts[run := starts[run].(stage := stage)];
      Record(BodyGetsNode(run));
      RunKeepsInv(INITIAL, history);
    }

    method OnBodyEnded(run: nat, ok: bool)
      requires Valid() && Enabled(View(), BodyEnds(run, ok))
      modifies this`starts, this`started, this`history
      ensures Valid() && history == old(history) + [BodyEnds(run, ok)]
      ensures started == ok && (ok ==> node.Some?) && !old(started)
      ensures var was := old(starts)[run];
              starts == old(starts)[run := StartRun(if ok then Completed else Aborted, was.starter, was.nodeCall)]
    {
      if ok {
        starts := starts[run := starts[run].(stage := Completed)];
        started := true;
      } else {
        starts := starts[run := starts[run].(stage := Aborted)];
      }
      ConfiguringHasNode(history, run);
      Record(BodyEnds(run, ok));
    }

    /** The caller returns if the body completed and throws if it was aborted; the starter forgets the promise. */
    method ResumeStart(call: nat)
      requires Valid() && Enabled(View(), StartCallResumes(call))
      modifies this`startPromise, this`startCalls, this`history
      ensures Valid() && history == old(history) + [StartCallResumes(call)]
      ensures var r := old(startCalls)[call].source.value;
              && r < |starts| && call < |startCalls|
              && startCalls == old(startCalls)[call := StartCall(Some(r), startCalls[call].result)]
              && (startCalls[call].result.Returned? <==> starts[r].stage.Completed?)
              && (startCalls[call].result.Rejected? <==> starts[r].stage.Aborted?)
              && startPromise == if starts[r].starter == call then None else old(startPromise)
      ensures startCalls[call].result.Returned? ==> started && node.Some?
      ensures forall r :: 0 <= r < |starts| && InFlight(View(), r) ==> startPromise == Some(r)
    {
      var run := startCalls[call].source.value;
      var result := if starts[run].stage.Completed? then Returned else Rejected;
      if starts[run].starter == call {
        startPromise := None;
      }
      startCalls := startCalls[call := startCalls[call].(result := result)];
      StartCleanupForgetsItself(history, call);
      Record(StartCallResumes(call));
      if result.Returned? {
        ReturnedMeansStarted(history, call);
      }
    }
  }
}
