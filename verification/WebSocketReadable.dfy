/**
 The readable half of a web socket (`createReadable` in packages/nodejs-ws/src/WebSocketStreams.ts).

 Socket listeners fill a queue and open a gate; the stream's `pull` waits at the gate and takes one item.  The stream
 follows the WHATWG Streams Standard: it calls `pull` only while readable and never while an earlier `pull` is
 pending, `enqueue` and `close` throw on a stream that is no longer readable, and `error` then has no effect.
 */
module WebSocketReadable {
  datatype Item<M, E> = Chunk(chunk: M) | Failure(error: E)

  datatype Stream<E> = Readable | Ended | Errored(error: E) | Cancelled

  /**
   `pulling` holds while a `pull` waits at the gate; `enqueued` lists the chunks handed to the controller; `closing`
   holds once the socket has been told to close.
   */
  datatype State<M, E> = State(
    queue: seq<Item<M, E>>,
    gate: bool,
    closed: bool,
    paused: bool,
    pulling: bool,
    stream: Stream<E>,
    enqueued: seq<M>,
    closing: bool)

  datatype Event<M, E> =
    | Message(message: M)
    | SocketError(error: E)
    | SocketClose
    | Pull
    | GatePassed
    | Cancel

  function Start<M, E>(): State<M, E> { State([], false, false, true, false, Readable, [], false) }

  predicate Enabled<M, E>(s: State<M, E>, e: Event<M, E>) {
    match e
    case Message(_) => !s.closed
    case SocketError(_) => !s.closed
    case SocketClose => !s.closed
    case Pull => s.stream.Readable? && !s.pulling
    case GatePassed => s.pulling && s.gate
    case Cancel => s.stream.Readable?
  }

  /** The part of `pull` after the gate, including its `finally`. */
  function Deliver<M, E>(s: State<M, E>): State<M, E> {
    var rest := if s.queue == [] then [] else s.queue[1..];
    var s1 := s.(queue := rest, gate := s.gate && (rest != [] || s.closed), pulling := false,
                 paused := s.paused || !s.closed);
    if !s.stream.Readable? then s1
    else if s.queue == [] then s1.(stream := Ended)
    else
      match s.queue[0]
      case Failure(error) => s1.(stream := Errored(error))
      case Chunk(chunk) => s1.(enqueued := s.enqueued + [chunk])
  }

  function Step<M, E>(s: State<M, E>, e: Event<M, E>): State<M, E> {
    match e
    case Message(message) => s.(queue := s.queue + [Chunk(message)], gate := true)
    case SocketError(error) => s.(closed := true, queue := s.queue + [Failure(error)], gate := true)
    case SocketClose => s.(closed := true, gate := true)
    case Pull => if s.closed then Deliver(s) else s.(paused := false, pulling := true)
    case GatePassed => Deliver(s)
    case Cancel => if s.closed then s.(stream := Cancelled) else s.(stream := Cancelled, queue := [], closing := true)
  }

  function Run<M, E>(events: seq<Event<M, E>>): State<M, E> {
    if events == [] then Start() else Step(Run(events[..|events| - 1]), events[|events| - 1])
  }

  predicate IsRun<M, E>(events: seq<Event<M, E>>) {
    forall i :: 0 <= i < |events| ==> Enabled(Run(events[..i]), events[i])
  }

  // ---- What the stream is for ----------------------------------------------------------------------------------

  function Received<M, E>(events: seq<Event<M, E>>): seq<M> {
    if events == [] then []
    else
      var before, last := events[..|events| - 1], events[|events| - 1];
      if last.Message? then Received(before) + [last.message] else Received(before)
  }

  function Chunks<M, E>(queue: seq<Item<M, E>>): seq<M> {
    if queue == [] then []
    else if queue[0].Chunk? then [queue[0].chunk] + Chunks(queue[1..]) else Chunks(queue[1..])
  }

  predicate Inv<M, E>(s: State<M, E>) {
    && (s.queue != [] || s.closed ==> s.gate)
    && (s.gate && !s.stream.Cancelled? ==> s.queue != [] || s.closed)
    && (forall i :: 0 <= i < |s.queue| && s.queue[i].Failure? ==> i == |s.queue| - 1 && s.closed)
    && (!s.closed ==> (s.paused <==> !s.pulling))
    && (s.closing ==> s.stream.Cancelled?) && (s.stream.Cancelled? ==> s.closing || s.closed)
    && (s.stream.Ended? || s.stream.Errored? ==> s.closed && s.queue == [] && !s.pulling)
  }

  lemma StepKeepsInv<M, E>(s: State<M, E>, e: Event<M, E>)
    requires Inv(s) && Enabled(s, e)
    ensures Inv(Step(s, e))
  {
  }

  lemma IsRunPrefix<M, E>(events: seq<Event<M, E>>)
    requires IsRun(events) && events != []
    ensures IsRun(events[..|events| - 1]) && Enabled(Run(events[..|events| - 1]), events[|events| - 1])
  {
    var before := events[..|events| - 1];
    forall i | 0 <= i < |before| ensures Enabled(Run(before[..i]), before[i]) {
      assert before[..i] == events[..i];
    }
  }

  lemma {:induction false} RunKeepsInv<M, E>(events: seq<Event<M, E>>)
    requires IsRun(events)
    ensures Inv(Run(events))
  {
    if events != [] {
      IsRunPrefix(events);
      RunKeepsInv(events[..|events| - 1]);
      StepKeepsInv(Run(events[..|events| - 1]), events[|events| - 1]);
    }
  }

  lemma {:induction false} ChunksAppend<M, E>(queue: seq<Item<M, E>>, item: Item<M, E>)
    ensures Chunks(queue + [item]) == Chunks(queue) + (if item.Chunk? then [item.chunk] else [])
  {
    if queue == [] {
      assert queue + [item] == [item];
    } else {
      assert (queue + [item])[1..] == queue[1..] + [item];
      ChunksAppend(queue[1..], item);
    }
  }

  /** Nothing is lost or doubled between the queue and the controller, and a finished stream stays as it is. */
  predicate KeepsChunks<M(==), E(==)>(s: State<M, E>, s': State<M, E>, received: seq<M>, cancelled: bool) {
    && (s.stream.Readable? && !cancelled ==>
          s'.enqueued + Chunks(s'.queue) == s.enqueued + Chunks(s.queue) + received)
    && (!s.stream.Readable? || cancelled ==> s'.enqueued == s.enqueued)
    && (s.stream.Ended? || s.stream.Errored? ==> s'.stream == s.stream)
    && (s'.stream.Readable? ==> s.stream.Readable?)
  }

  lemma DeliverKeepsChunks<M, E>(s: State<M, E>)
    requires Inv(s)
    ensures KeepsChunks(s, Deliver(s), [], false)
  {
  }

  /** What a step hands over and still holds, against what it received. */
  lemma StepKeepsChunks<M, E>(s: State<M, E>, e: Event<M, E>)
    requires Inv(s) && Enabled(s, e)
    ensures KeepsChunks(s, Step(s, e), if e.Message? then [e.message] else [], e.Cancel?)
  {
    match e
    case Message(message) => ChunksAppend(s.queue, Chunk(message));
    case SocketError(error) => ChunksAppend(s.queue, Failure(error));
    case Pull => DeliverKeepsChunks(s);
    case GatePassed => DeliverKeepsChunks(s);
    case _ =>
  }

  /** The chunks are a prefix of the messages; until the stream ends, fails or is cancelled the rest is queued. */
  lemma {:induction false} ChunksArePrefix<M, E>(events: seq<Event<M, E>>)
    requires IsRun(events)
    ensures var s := Run(events);
            && s.enqueued <= Received(events)
            && (!s.stream.Cancelled? ==> s.enqueued + Chunks(s.queue) == Received(events))
  {
    if events != [] {
      var before, last := events[..|events| - 1], events[|events| - 1];
      IsRunPrefix(events);
      ChunksArePrefix(before);
      RunKeepsInv(before);
      StepKeepsChunks(Run(before), last);
      RunKeepsInv(events);
    }
  }

  /** The stream ends or fails only after the socket closed, with every message received before delivered. */
  lemma EndsWithEverythingDelivered<M, E>(events: seq<Event<M, E>>)
    requires IsRun(events) && (Run(events).stream.Ended? || Run(events).stream.Errored?)
    ensures Run(events).closed && Run(events).enqueued == Received(events)
  {
    RunKeepsInv(events);
    ChunksArePrefix(events);
  }

  /** How the socket ended: at most one of its terminal events can reach the listeners. */
  function Ending<M, E>(events: seq<Event<M, E>>): seq<Event<M, E>> {
    if events == [] then []
    else
      var before, last := events[..|events| - 1], events[|events| - 1];
      if last.SocketClose? || last.SocketError? then Ending(before) + [last] else Ending(before)
  }

  ghost predicate EndsLike<M, E>(s: State<M, E>, ending: seq<Event<M, E>>) {
    && |ending| <= 1 && (ending != [] ==> ending[0].SocketClose? || ending[0].SocketError?)
    && (s.closed <==> |ending| == 1)
    && (s.stream.Ended? ==> ending == [SocketClose])
    && (s.stream.Errored? ==> ending == [SocketError(s.stream.error)])
    && (forall i :: 0 <= i < |s.queue| && s.queue[i].Failure? ==> ending == [SocketError(s.queue[i].error)])
    && (ending != [] && ending[0].SocketError? && s.stream.Readable? ==>
          s.queue != [] && s.queue[|s.queue| - 1] == Failure(ending[0].error))
  }

  lemma {:induction false} EndingIsReported<M, E>(events: seq<Event<M, E>>)
    requires IsRun(events)
    ensures EndsLike(Run(events), Ending(events))
  {
    if events != [] {
      var before, last := events[..|events| - 1], events[|events| - 1];
      IsRunPrefix(events);
      EndingIsReported(before);
      RunKeepsInv(before);
      StepKeepsEnding(Run(before), last, Ending(before));
    }
  }

  lemma StepKeepsEnding<M, E>(s: State<M, E>, e: Event<M, E>, ending: seq<Event<M, E>>)
    requires Inv(s) && Enabled(s, e) && EndsLike(s, ending)
    ensures EndsLike(Step(s, e), if e.SocketClose? || e.SocketError? then ending + [e] else ending)
  {
  }

  // ---- Progress ------------------------------------------------------------------------------------------------

  function Pulls<M, E>(s: State<M, E>, n: nat): State<M, E>
    decreases n
  {
    if n == 0 then s else Pulls(Step(s, Pull), n - 1)
  }

  /**
   A pull that waits while messages are queued can proceed, an open socket flows exactly while a pull waits, and an open
   socket whose stream was cancelled has been told to close.
   */
  lemma WaitingPullCanProceed<M, E>(events: seq<Event<M, E>>)
    requires IsRun(events)
    ensures var s := Run(events);
            && (s.pulling && (s.queue != [] || s.closed) ==> Enabled(s, GatePassed))
            && (!s.closed ==> (s.paused <==> !s.pulling) && (s.closing <==> s.stream.Cancelled?))
  {
    RunKeepsInv(events);
  }

  /** Once the socket has closed, reading the queued chunks and one pull more finishes the stream. */
  lemma {:induction false} DrainsAfterClose<M, E>(s: State<M, E>)
    requires Inv(s) && s.closed && s.stream.Readable? && !s.pulling
    ensures var s' := Pulls(s, |Chunks(s.queue)| + 1);
            && s'.enqueued == s.enqueued + Chunks(s.queue)
            && s'.stream == (if s.queue != [] && s.queue[|s.queue| - 1].Failure?
                             then Errored(s.queue[|s.queue| - 1].error) else Ended)
    decreases |s.queue|
  {
    if s.queue != [] && s.queue[0].Chunk? {
      var s1 := Step(s, Pull);
      assert s1.queue == s.queue[1..];
      DrainsAfterClose(s1);
      assert s1.enqueued + Chunks(s1.queue) == s.enqueued + Chunks(s.queue);
    } else if s.queue != [] {
      assert |s.queue| == 1;
      assert Chunks(s.queue) == [];
      assert Pulls(s, 1) == Pulls(Step(s, Pull), 0);
    } else {
      assert Pulls(s, 1) == Pulls(Step(s, Pull), 0);
    }
  }

  /** The chunks are a prefix of the messages; at an end or a failure of the stream they are all of them. */
  ghost predicate Delivers<M, E>(s: State<M, E>, events: seq<Event<M, E>>) {
    && s.enqueued <= Received(events)
    && (s.stream.Ended? || s.stream.Errored? ==> s.closed && s.enqueued == Received(events))
  }

  lemma RunDelivers<M, E>(events: seq<Event<M, E>>)
    requires IsRun(events)
    ensures Delivers(Run(events), events)
  {
    ChunksArePrefix(events);
    if Run(events).stream.Ended? || Run(events).stream.Errored? {
      EndsWithEverythingDelivered(events);
    }
  }

  // ---- The source object ---------------------------------------------------------------------------------------

  /** The variables `createReadable` closes over, with its listeners and the two stream callbacks as methods. */
  class Source<M, E> {
    var queue: seq<Item<M, E>>
    var gate: bool
    var closed: bool
    var paused: bool
    var pulling: bool
    var stream: Stream<E>
    var enqueued: seq<M>
    var closing: bool
    ghost var history: seq<Event<M, E>>

    ghost function View(): State<M, E>
      reads this
    {
      State(queue, gate, closed, paused, pulling, stream, enqueued, closing)
    }

    ghost predicate Valid()
      reads this
    {
      View() == Run(history) && IsRun(history)
    }

    ghost method Record(e: Event<M, E>)
      requires IsRun(history) && Enabled(Run(history), e) && View() == Step(Run(history), e)
      modifies this`history
      ensures Valid() && history == old(history) + [e]
    {
      history := history + [e];
      assert history[..|history| - 1] == old(history);
      forall i | 0 <= i < |history| ensures Enabled(Run(history[..i]), history[i]) {
        if i < |old(history)| {
          assert history[..i] == old(history)[..i];
        }
      }
    }

    constructor ()
      ensures Valid() && history == []
    {
      queue, gate, closed, paused, pulling := [], false, false, true, false;
      stream, enqueued, closing, history := Readable, [], false, [];
    }

    method OnMessage(message: M)
      requires Valid() && Enabled(View(), Message(message))
      modifies this`queue, this`gate, this`history
      ensures Valid() && history == old(history) + [Message(message)]
      ensures queue == old(queue) + [Chunk(message)] && gate
      ensures Received(history) == old(Received(history)) + [message] && enqueued <= Received(history)
    {
      queue := queue + [Chunk(message)];
      gate := true;
      Record(Message(message));
      ChunksArePrefix(history);
    }

    method OnError(error: E)
      requires Valid() && Enabled(View(), SocketError(error))
      modifies this`closed, this`queue, this`gate, this`history
      ensures Valid() && history == old(history) + [SocketError(error)]
      ensures closed && queue == old(queue) + [Failure(error)] && gate
      ensures Ending(history) == [SocketError(error)]
    {
      closed := true;
      queue := queue + [Failure(error)];
      gate := true;
      EndingIsReported(history);
      Record(SocketError(error));
    }

    method OnClose()
      requires Valid() && Enabled(View(), SocketClose)
      modifies this`closed, this`gate, this`history
      ensures Valid() && history == old(history) + [SocketClose]
      ensures closed && gate
      ensures Ending(history) == [SocketClose]
    {
      closed := true;
      gate := true;
      EndingIsReported(history);
      Record(SocketClose);
    }

    /**
     A pull has taken one item: a stream still readable gets the chunk or the failure, and ends if there was none.  The
     gate closes behind the last item, and the socket is paused again, unless the socket is closed.
     */
    twostate predicate Taken()
      reads this
    {
      && !pulling && unchanged(`closed, `closing)
      && queue == (if old(queue) == [] then [] else old(queue)[1..])
      && gate == (old(gate) && (queue != [] || closed)) && paused == (old(paused) || !closed)
      && if !old(stream).Readable? then unchanged(`stream, `enqueued)
         else if old(queue) == [] then stream.Ended? && unchanged(`enqueued)
         else match old(queue)[0]
              case Failure(error) => stream == Errored(error) && unchanged(`enqueued)
              case Chunk(chunk) => stream.Readable? && enqueued == old(enqueued) + [chunk]
    }

    /** `pull` up to its await, or to its end when the socket has closed already. */
    method StartPull()
      requires Valid() && Enabled(View(), Pull)
      modifies this
      ensures Valid() && history == old(history) + [Pull] && Delivers(View(), history)
      ensures if old(closed) then Taken()
              else pulling && !paused && unchanged(`queue, `gate, `closed, `stream, `enqueued, `closing)
    {
      if closed {
        TakeOne();
      } else {
        paused := false;
        pulling := true;
      }
      Record(Pull);
      RunDelivers(history);
    }

    method ResumePull()
      requires Valid() && Enabled(View(), GatePassed)
      modifies this
      ensures Valid() && history == old(history) + [GatePassed] && Delivers(View(), history) && Taken()
      ensures old(stream).Readable? && !closed ==>
                old(|enqueued|) < |Received(history)| &&
                enqueued == old(enqueued) + [Received(history)[old(|enqueued|)]]
    {
      RunKeepsInv(history);
      TakeOne();
      Record(GatePassed);
      RunDelivers(history);
    }

    method TakeOne()
      modifies this`queue, this`gate, this`paused, this`pulling, this`stream, this`enqueued
      ensures View() == Deliver(old(View())) && Taken()
    {
      var found := queue != [];
      var next := queue;
      if found {
        queue := queue[1..];
      }
      if queue == [] && !closed {
        gate := false;
      }
      if stream.Readable? {
        if !found {
          stream := Ended;
        } else if next[0].Failure? {
          stream := Errored(next[0].error);
        } else {
          enqueued := enqueued + [next[0].chunk];
        }
      }
      if !closed {
        paused := true;
      }
      pulling := false;
    }

    method CancelStream()
      requires Valid() && Enabled(View(), Cancel)
      modifies this`stream, this`queue, this`closing, this`history
      ensures Valid() && history == old(history) + [Cancel] && Delivers(View(), history)
      ensures stream.Cancelled? && queue == (if closed then old(queue) else []) && closing == (old(closing) || !closed)
    {
      stream := Cancelled;
      if !closed {
        closing := true;
        queue := [];
      }
      Record(Cancel);
      RunDelivers(history);
    }
  }
}
