/**
 Where a chat message can be: any number of widgets share one session-storage queue, while sends,
 replays, answers and network changes interleave freely. Code between two awaits is one step.
 */
module OfflineQueue {
  import opened Options
  import opened Sums

  /** What the queue carries of a message; the id and the timestamp are minted anew at each queueing. */
  datatype Message = Message(text: string, key: string)

  /** The storage entry: absent, unreadable as a JSON array, or a queue. */
  datatype Stored = Missing | Unreadable | Queue(items: seq<Message>)

  function ReadQueue(stored: Stored): seq<Message> {
    if stored.Queue? then stored.items else []
  }

  function WriteQueue(items: seq<Message>): Stored {
    if items == [] then Missing else Queue(items)
  }

  /** Appends to whatever can be read; an unreadable entry is overwritten. A failed write is swallowed. */
  function Enqueue(stored: Stored, message: Message, written: bool): Stored {
    if written then WriteQueue(ReadQueue(stored) + [message]) else stored
  }

  datatype Stage = Fetching | Streaming | Closed

  /** One call of `dispatchStreamMessage` past its online check, and the replay that awaits it, if any. */
  datatype Dispatch = Dispatch(widget: nat, message: Message, stage: Stage, replay: Option<nat>)

  /** One call of `drainOfflineQueue`: what it has yet to replay, and whether it awaits a dispatch. */
  datatype Replay = Replay(widget: nat, remaining: seq<Message>, awaiting: bool)

  datatype Widget = Widget(online: bool, sending: bool)

  /** `accepted`, `requests` and `turns` record what users sent, what reached the network and what the server did. */
  datatype World = World(stored: Stored, widgets: seq<Widget>, dispatches: seq<Dispatch>, replays: seq<Replay>,
                         finished: seq<Message>, accepted: seq<Message>, requests: seq<Message>, turns: seq<Message>)

  /** How a fetch ends: 401, 403 or 409; another error status; a body to stream; or no body or no network. */
  datatype Answer = Refused | ServerError | Body | Broken

  /**
   `connected` is `navigator.onLine`; `cleared` and `written` say which storage writes of the queue succeed, and
   `minted` whether the session's identifier is in storage or can be put there.
   */
  datatype Step =
    | Mounts(online: bool, connected: bool, cleared: bool, minted: bool, written: bool)
    | Sends(widget: nat, message: Message, connected: bool, minted: bool, written: bool)
    | NetworkChanges(widget: nat, online: bool, connected: bool, cleared: bool, minted: bool, written: bool)
    | ReplayContinues(replay: nat, connected: bool, minted: bool, written: bool)
    | Answers(dispatch: nat, answer: Answer, written: bool)
    | StreamEnds(dispatch: nat)
    | StreamBreaks(dispatch: nat, written: bool)
    | ServerHandles(request: nat)

  function SetSending(w: World, widget: nat, sending: bool): World {
    if widget < |w.widgets| then w.(widgets := w.widgets[widget := w.widgets[widget].(sending := sending)]) else w
  }

  /** A dispatch that throws before its `try`: online, and without an identifier for the session. */
  predicate Rejects(w: World, widget: nat, connected: bool, minted: bool)
    requires widget < |w.widgets|
  {
    w.widgets[widget].online && connected && !minted
  }

  /** A replay whose dispatch throws ends there, and what it had yet to replay goes with it. */
  function Abandon(replays: seq<Replay>, replay: Option<nat>): seq<Replay> {
    if replay.Some? && replay.value < |replays| then replays[replay.value := replays[replay.value].(remaining := [])]
    else replays
  }

  /**
   The head of a dispatch: queued while offline; otherwise on the network with its original key, unless it throws,
   with its widget already marked as sending.
   */
  function StartDispatch(w: World, widget: nat, message: Message, replay: Option<nat>, connected: bool, minted: bool,
                         written: bool): World
    requires widget < |w.widgets|
  {
    if !w.widgets[widget].online || !connected then w.(stored := Enqueue(w.stored, message, written))
    else if !minted then SetSending(w, widget, true).(replays := Abandon(w.replays, replay))
    else
      SetSending(w, widget, true).(
        dispatches := w.dispatches + [Dispatch(widget, message, Fetching, replay)],
        replays := if replay.Some? && replay.value < |w.replays|
                   then w.replays[replay.value := w.replays[replay.value].(awaiting := true)] else w.replays,
        requests := w.requests + [message])
  }

  /** One iteration of a replay: its next message, dispatched under its original key. */
  function Continue(w: World, replay: nat, connected: bool, minted: bool, written: bool): World
    requires replay < |w.replays|
  {
    var r := w.replays[replay];
    if r.awaiting || r.remaining == [] || r.widget >= |w.widgets| then w
    else
      StartDispatch(w.(replays := w.replays[replay := r.(remaining := r.remaining[1..])]),
                    r.widget, r.remaining[0], Some(replay), connected, minted, written)
  }

  /** Reads the queue, clears it before replaying, and runs up to the first await. */
  function StartReplay(w: World, widget: nat, connected: bool, cleared: bool, minted: bool, written: bool): World {
    var queue := ReadQueue(w.stored);
    if queue == [] then w
    else
      Continue(w.(stored := if cleared then Missing else w.stored,
                  replays := w.replays + [Replay(widget, queue, false)]),
               |w.replays|, connected, minted, written)
  }

  /** A dispatch returns: its widget may send again and the replay awaiting it goes on. */
  function Close(w: World, dispatch: nat): World
    requires dispatch < |w.dispatches|
  {
    var d := w.dispatches[dispatch];
    SetSending(w, d.widget, false).(
      dispatches := w.dispatches[dispatch := d.(stage := Closed)],
      replays := if d.replay.Some? && d.replay.value < |w.replays|
                 then w.replays[d.replay.value := w.replays[d.replay.value].(awaiting := false)] else w.replays)
  }

  function Finish(w: World, dispatch: nat): World
    requires dispatch < |w.dispatches|
  {
    Close(w, dispatch).(finished := w.finished + [w.dispatches[dispatch].message])
  }

  /** The message goes back to the queue under its original key. */
  function Requeue(w: World, dispatch: nat, written: bool): World
    requires dispatch < |w.dispatches|
  {
    Close(w, dispatch).(stored := Enqueue(w.stored, w.dispatches[dispatch].message, written))
  }

  predicate In(w: World, dispatch: nat, stage: Stage) {
    dispatch < |w.dispatches| && w.dispatches[dispatch].stage == stage
  }

  /** One step; a step that is not due changes nothing. */
  function Next(w: World, step: Step): World {
    match step
    case Mounts(online, connected, cleared, minted, written) =>
      var mounted := w.(widgets := w.widgets + [Widget(online, false)]);
      if online then StartReplay(mounted, |w.widgets|, connected, cleared, minted, written) else mounted
    case Sends(widget, message, connected, minted, written) =>
      if widget >= |w.widgets| || w.widgets[widget].sending || message.text == "" then w
      else StartDispatch(w.(accepted := w.accepted + [message]), widget, message, None, connected, minted, written)
    case NetworkChanges(widget, online, connected, cleared, minted, written) =>
      if widget >= |w.widgets| then w
      else
        var changed := w.(widgets := w.widgets[widget := w.widgets[widget].(online := online)]);
        if online then StartReplay(changed, widget, connected, cleared, minted, written) else changed
    case ReplayContinues(replay, connected, minted, written) =>
      if replay < |w.replays| then Continue(w, replay, connected, minted, written) else w
    case Answers(dispatch, answer, written) =>
      if !In(w, dispatch, Fetching) then w
      else
        match answer {
          case Refused => Finish(w, dispatch)
          case Body => w.(dispatches := w.dispatches[dispatch := w.dispatches[dispatch].(stage := Streaming)])
          case ServerError => Requeue(w, dispatch, written)
          case Broken => Requeue(w, dispatch, written)
        }
    case StreamEnds(dispatch) => if In(w, dispatch, Streaming) then Finish(w, dispatch) else w
    case StreamBreaks(dispatch, written) => if In(w, dispatch, Streaming) then Requeue(w, dispatch, written) else w
    case ServerHandles(request) =>
      if request < |w.requests| && (forall t :: 0 <= t < |w.turns| ==> w.turns[t].key != w.requests[request].key)
      then w.(turns := w.turns + [w.requests[request]]) else w
  }

  function Run(w: World, steps: seq<Step>): World
    decreases steps
  {
    if steps == [] then w else Run(Next(w, steps[0]), steps[1..])
  }

  /** A page that loads over the queue an earlier page left. */
  function Start(stored: Stored): World {
    World(stored, [], [], [], [], ReadQueue(stored), [], [])
  }

  // ---- conservation

  function Copies(items: seq<Message>, m: Message): nat { multiset(items)[m] }

  function RemainingCopies(m: Message): Replay -> nat { (r: Replay) => Copies(r.remaining, m) }

  function OpenCopies(m: Message): Dispatch -> nat {
    (d: Dispatch) => if d.stage != Closed && d.message == m then 1 else 0
  }

  /** How often a message is in the queue, in a replay's remaining list, in flight, or finished. */
  function Places(w: World, m: Message): nat {
    Copies(ReadQueue(w.stored), m) + Sum(w.replays, RemainingCopies(m)) + Sum(w.dispatches, OpenCopies(m))
      + Copies(w.finished, m)
  }

  /** Every acceptance of a message is in exactly one place. */
  ghost predicate Conserved(w: World) { forall m :: Places(w, m) == Copies(w.accepted, m) }

  function One(m: Message, n: Message): nat { if m == n then 1 else 0 }

  lemma CopiesAppend(items: seq<Message>, m: Message, n: Message)
    ensures Copies(items + [m], n) == Copies(items, n) + One(m, n)
  {
  }

  lemma CopiesPop(items: seq<Message>, n: Message)
    requires items != []
    ensures Copies(items, n) == Copies(items[1..], n) + One(items[0], n)
  {
    assert items == [items[0]] + items[1..];
  }

  /** A write that succeeds adds the message to whatever could be read; one that fails adds nothing. */
  lemma EnqueueAdds(stored: Stored, message: Message, written: bool, n: Message)
    ensures Copies(ReadQueue(Enqueue(stored, message, written)), n)
         == Copies(ReadQueue(stored), n) + if written then One(message, n) else 0
  {
    CopiesAppend(ReadQueue(stored), message, n);
  }

  /** Waking or parking a replay moves nothing. */
  lemma AwaitingMovesNothing(replays: seq<Replay>, i: nat, awaiting: bool, n: Message)
    requires i < |replays|
    ensures Sum(replays[i := replays[i].(awaiting := awaiting)], RemainingCopies(n)) == Sum(replays, RemainingCopies(n))
  {
    SumUpdate(replays, i, replays[i].(awaiting := awaiting), RemainingCopies(n));
  }

  /** A message that starts to be dispatched is kept: on the network, or in a queue that takes it. */
  predicate Kept(w: World, widget: nat, connected: bool, minted: bool, written: bool)
    requires widget < |w.widgets|
  {
    if w.widgets[widget].online && connected then minted else written
  }

  /** How many of a message the replay that awaits a dispatch has yet to replay. */
  function Awaited(w: World, replay: Option<nat>, n: Message): nat {
    if replay.Some? && replay.value < |w.replays| then Copies(w.replays[replay.value].remaining, n) else 0
  }

  /**
   Starting a dispatch puts its message in exactly one more place,
   if it is kept; one that throws takes its replay along.
   */
  lemma StartDispatchPlaces(w: World, widget: nat, message: Message, replay: Option<nat>, connected: bool,
                            minted: bool, written: bool, n: Message)
    requires widget < |w.widgets|
    ensures Places(StartDispatch(w, widget, message, replay, connected, minted, written), n)
            + (if Rejects(w, widget, connected, minted) then Awaited(w, replay, n) else 0)
         == Places(w, n) + if Kept(w, widget, connected, minted, written) then One(message, n) else 0
  {
    EnqueueAdds(w.stored, message, written, n);
    SumAppend(w.dispatches, Dispatch(widget, message, Fetching, replay), OpenCopies(n));
    if replay.Some? && replay.value < |w.replays| {
      AwaitingMovesNothing(w.replays, replay.value, true, n);
      SumUpdate(w.replays, replay.value, w.replays[replay.value].(remaining := []), RemainingCopies(n));
      assert Copies([], n) == 0;
    }
  }

  /** The replay has a message to dispatch, and a widget that does it. */
  predicate IsDue(w: World, replay: nat) {
    && replay < |w.replays| && !w.replays[replay].awaiting && w.replays[replay].remaining != []
    && w.replays[replay].widget < |w.widgets|
  }

  /**
   How an iteration of a replay moves a message: out of the remaining
   list, and to where the dispatch puts it, if anywhere.
   */
  lemma ContinueMoves(w: World, replay: nat, connected: bool, minted: bool, written: bool, n: Message)
    requires IsDue(w, replay)
    ensures var r := w.replays[replay];
            Places(Continue(w, replay, connected, minted, written), n) + One(r.remaining[0], n)
            + (if Rejects(w, r.widget, connected, minted) then Copies(r.remaining[1..], n) else 0)
            == Places(w, n) + if Kept(w, r.widget, connected, minted, written) then One(r.remaining[0], n) else 0
  {
    var r := w.replays[replay];
    var popped := w.(replays := w.replays[replay := r.(remaining := r.remaining[1..])]);
    SumUpdate(w.replays, replay, r.(remaining := r.remaining[1..]), RemainingCopies(n));
    CopiesPop(r.remaining, n);
    StartDispatchPlaces(popped, r.widget, r.remaining[0], Some(replay), connected, minted, written, n);
  }

  lemma ContinuePlaces(w: World, replay: nat, connected: bool, n: Message)
    requires replay < |w.replays|
    ensures Places(Continue(w, replay, connected, true, true), n) == Places(w, n)
  {
    if IsDue(w, replay) {
      ContinueMoves(w, replay, connected, true, true, n);
    }
  }

  lemma StartReplayPlaces(w: World, widget: nat, connected: bool, cleared: bool, n: Message)
    ensures Places(StartReplay(w, widget, connected, cleared, true, true), n)
         == Places(w, n) + if cleared then 0 else Copies(ReadQueue(w.stored), n)
  {
    var queue := ReadQueue(w.stored);
    if queue != [] {
      SumAppend(w.replays, Replay(widget, queue, false), RemainingCopies(n));
      var stored := if cleared then Missing else w.stored;
      ContinuePlaces(w.(stored := stored, replays := w.replays + [Replay(widget, queue, false)]), |w.replays|,
                     connected, n);
    }
  }

  lemma ClosePlaces(w: World, dispatch: nat, n: Message)
    requires dispatch < |w.dispatches| && w.dispatches[dispatch].stage != Closed
    ensures Places(Close(w, dispatch), n) + One(w.dispatches[dispatch].message, n) == Places(w, n)
  {
    var d := w.dispatches[dispatch];
    SumUpdate(w.dispatches, dispatch, d.(stage := Closed), OpenCopies(n));
    if d.replay.Some? && d.replay.value < |w.replays| {
      AwaitingMovesNothing(w.replays, d.replay.value, false, n);
    }
  }

  lemma FinishPlaces(w: World, dispatch: nat, n: Message)
    requires dispatch < |w.dispatches| && w.dispatches[dispatch].stage != Closed
    ensures Places(Finish(w, dispatch), n) == Places(w, n)
  {
    ClosePlaces(w, dispatch, n);
    CopiesAppend(w.finished, w.dispatches[dispatch].message, n);
  }

  lemma RequeuePlaces(w: World, dispatch: nat, written: bool, n: Message)
    requires dispatch < |w.dispatches| && w.dispatches[dispatch].stage != Closed
    ensures Places(Requeue(w, dispatch, written), n) + (if written then 0 else One(w.dispatches[dispatch].message, n))
            == Places(w, n)
  {
    ClosePlaces(w, dispatch, n);
    EnqueueAdds(w.stored, w.dispatches[dispatch].message, written, n);
  }

  /** The storage writes the step makes, if any, succeed. */
  predicate WriteSucceeds(step: Step) {
    match step
    case Sends(_, _, _, minted, written) => minted && written
    case ReplayContinues(_, _, minted, written) => minted && written
    case Answers(_, _, written) => written
    case StreamBreaks(_, written) => written
    case Mounts(_, _, cleared, minted, written) => cleared && minted && written
    case NetworkChanges(_, _, _, cleared, minted, written) => cleared && minted && written
    case _ => true
  }

  lemma NextConserves(w: World, step: Step)
    requires Conserved(w) && WriteSucceeds(step)
    ensures Conserved(Next(w, step))
  {
    forall n ensures Places(Next(w, step), n) == Copies(Next(w, step).accepted, n) {
      assert Places(w, n) == Copies(w.accepted, n);
      NextPlaces(w, step, n);
    }
  }

  /** An accepted message that is dispatched is in exactly one place more. */
  lemma AcceptedPlaces(w: World, widget: nat, message: Message, connected: bool, n: Message)
    requires widget < |w.widgets|
    ensures var accepted := w.(accepted := w.accepted + [message]);
            var after := StartDispatch(accepted, widget, message, None, connected, true, true);
            Places(after, n) == Places(w, n) + One(message, n)
            && Copies(after.accepted, n) == Copies(w.accepted, n) + One(message, n)
  {
    var accepted := w.(accepted := w.accepted + [message]);
    assert Places(accepted, n) == Places(w, n);
    StartDispatchPlaces(accepted, widget, message, None, connected, true, true, n);
    CopiesAppend(w.accepted, message, n);
  }

  lemma SendPlaces(w: World, step: Step, n: Message)
    requires step.Sends? && step.minted && step.written
    ensures Places(Next(w, step), n) + Copies(w.accepted, n) == Places(w, n) + Copies(Next(w, step).accepted, n)
  {
    if step.widget < |w.widgets| {
      AcceptedPlaces(w, step.widget, step.message, step.connected, n);
    }
  }

  lemma AnswerPlaces(w: World, dispatch: nat, answer: Answer, n: Message)
    ensures Places(Next(w, Answers(dispatch, answer, true)), n) == Places(w, n)
  {
    if In(w, dispatch, Fetching) {
      match answer
      case Refused => FinishPlaces(w, dispatch, n);
      case Body => BodyPlaces(w, dispatch, n);
      case _ => RequeuePlaces(w, dispatch, true, n);
    }
  }

  lemma BodyPlaces(w: World, dispatch: nat, n: Message)
    requires In(w, dispatch, Fetching)
    ensures Places(w.(dispatches := w.dispatches[dispatch := w.dispatches[dispatch].(stage := Streaming)]), n)
            == Places(w, n)
  {
    SumUpdate(w.dispatches, dispatch, w.dispatches[dispatch].(stage := Streaming), OpenCopies(n));
  }

  lemma NextPlaces(w: World, step: Step, n: Message)
    requires WriteSucceeds(step)
    ensures Places(Next(w, step), n) + Copies(w.accepted, n) == Places(w, n) + Copies(Next(w, step).accepted, n)
  {
    if !step.Sends? {
      OnlySendsAccept(w, step);
    }
    match step
    case Mounts(online, connected, cleared, minted, written) =>
      if online {
        StartReplayPlaces(w.(widgets := w.widgets + [Widget(online, false)]), |w.widgets|, connected, true, n);
      }
    case Sends(_, _, _, _, _) => SendPlaces(w, step, n);
    case NetworkChanges(widget, online, connected, cleared, minted, written) =>
      if widget < |w.widgets| && online {
        StartReplayPlaces(w.(widgets := w.widgets[widget := w.widgets[widget].(online := online)]), widget, connected,
                          true, n);
      }
    case Answers(dispatch, answer, written) => AnswerPlaces(w, dispatch, answer, n);
    case _ => ReturnPlaces(w, step, n);
  }

  lemma ReturnPlaces(w: World, step: Step, n: Message)
    requires WriteSucceeds(step) && (step.ReplayContinues? || step.StreamEnds? || step.StreamBreaks?
                                     || step.ServerHandles?)
    ensures Places(Next(w, step), n) == Places(w, n)
  {
    match step
    case ReplayContinues(replay, connected, minted, written) =>
      if replay < |w.replays| { ContinuePlaces(w, replay, connected, n); }
    case StreamEnds(dispatch) => if In(w, dispatch, Streaming) { FinishPlaces(w, dispatch, n); }
    case StreamBreaks(dispatch, written) => if In(w, dispatch, Streaming) { RequeuePlaces(w, dispatch, written, n); }
    case ServerHandles(_) =>
  }

  lemma OnlySendsAccept(w: World, step: Step)
    requires !step.Sends?
    ensures Next(w, step).accepted == w.accepted
  {
  }

  lemma {:induction false} RunConserves(w: World, steps: seq<Step>)
    requires Conserved(w) && forall s :: 0 <= s < |steps| ==> WriteSucceeds(steps[s])
    ensures Conserved(Run(w, steps))
    decreases steps
  {
    if steps != [] {
      NextConserves(w, steps[0]);
      RunConserves(Next(w, steps[0]), steps[1..]);
    }
  }

  predicate DistinctKeys(items: seq<Message>) {
    forall i, j :: 0 <= i < j < |items| ==> items[i].key != items[j].key
  }

  lemma {:induction false} DistinctCopies(items: seq<Message>, m: Message)
    requires DistinctKeys(items)
    ensures Copies(items, m) == if m in items then 1 else 0
  {
    if items != [] {
      var n := |items| - 1;
      assert items == items[..n] + [items[n]];
      DistinctCopies(items[..n], m);
      CopiesAppend(items[..n], items[n], m);
    }
  }

  /**
   Message conservation. While storage writes succeed, over any interleaving of widgets, sends,
   replays, answers, failures and network changes, every accepted message is in exactly one of the
   queue, a replay's remaining list, in flight, or finished, and nothing else is anywhere.
   */
  lemma {:induction false} EveryMessageIsInOnePlace(stored: Stored, steps: seq<Step>, m: Message)
    requires forall s :: 0 <= s < |steps| ==> WriteSucceeds(steps[s])
    requires DistinctKeys(Run(Start(stored), steps).accepted)
    ensures Places(Run(Start(stored), steps), m) == if m in Run(Start(stored), steps).accepted then 1 else 0
  {
    assert Conserved(Start(stored));
    RunConserves(Start(stored), steps);
    DistinctCopies(Run(Start(stored), steps).accepted, m);
  }

  // ---- exactly when a step conserves

  /**
   What starting a replay of a queue needs: nothing to replay; or a cleared queue and a kept first message; or a
   queue that is not cleared, and from which nothing goes on: the dispatch throws, or it is one message, not written.
   */
  predicate ReplayKeeps(queue: seq<Message>, cleared: bool, kept: bool, rejected: bool) {
    queue == [] || (cleared && kept) || (!cleared && !kept && (rejected || |queue| == 1))
  }

  /** The storage writes of the step that must succeed, and no others. */
  predicate Conserves(w: World, step: Step) {
    match step
    case Mounts(online, connected, cleared, minted, written) =>
      online ==> ReplayKeeps(ReadQueue(w.stored), cleared, if connected then minted else written, connected && !minted)
    case NetworkChanges(widget, online, connected, cleared, minted, written) =>
      widget < |w.widgets| && online ==>
        ReplayKeeps(ReadQueue(w.stored), cleared, if connected then minted else written, connected && !minted)
    case Sends(widget, message, connected, minted, written) =>
      widget < |w.widgets| && !w.widgets[widget].sending && message.text != "" ==>
        Kept(w, widget, connected, minted, written)
    case ReplayContinues(replay, connected, minted, written) =>
      IsDue(w, replay) ==> Kept(w, w.replays[replay].widget, connected, minted, written)
    case Answers(dispatch, answer, written) =>
      In(w, dispatch, Fetching) && (answer.ServerError? || answer.Broken?) ==> written
    case StreamBreaks(dispatch, written) => In(w, dispatch, Streaming) ==> written
    case _ => true
  }

  /**
   If every message's places move by a difference that vanishes for
   all of them together, conservation is kept exactly then.
   */
  lemma BalanceDecides(w: World, after: World, sample: Message, kept: bool)
    requires Conserved(w)
    requires kept ==> forall n :: Places(after, n) + Copies(w.accepted, n) == Places(w, n) + Copies(after.accepted, n)
    requires !kept ==>
               Places(after, sample) + Copies(w.accepted, sample) != Places(w, sample) + Copies(after.accepted, sample)
    ensures Conserved(after) <==> kept
  {
    assert Places(w, sample) == Copies(w.accepted, sample);
    if kept {
      forall n ensures Places(after, n) == Copies(after.accepted, n) {
        assert Places(w, n) == Copies(w.accepted, n);
      }
    } else {
      assert Places(after, sample) != Copies(after.accepted, sample);
    }
  }

  /** A requeue, on any retryable end of any open dispatch, conserves if and only if its write succeeds. */
  lemma RequeueConservesExactly(w: World, dispatch: nat, written: bool)
    requires Conserved(w) && dispatch < |w.dispatches| && w.dispatches[dispatch].stage != Closed
    ensures Conserved(Requeue(w, dispatch, written)) <==> written
  {
    forall n ensures Places(Requeue(w, dispatch, written), n)
           + (if written then 0 else One(w.dispatches[dispatch].message, n)) == Places(w, n) {
      RequeuePlaces(w, dispatch, written, n);
    }
    BalanceDecides(w, Requeue(w, dispatch, written), w.dispatches[dispatch].message, written);
  }

  /** When a retryable failure cannot be written back, its message is nowhere. */
  lemma FailedWriteLosesTheMessage(w: World, dispatch: nat, answer: Answer, written: bool)
    requires Conserved(w) && In(w, dispatch, Fetching) && (answer.ServerError? || answer.Broken?)
    ensures Conserved(Next(w, Answers(dispatch, answer, written))) <==> written
  {
    RequeueConservesExactly(w, dispatch, written);
  }

  /** A send conserves if and only if its message reaches the network or is written to the queue. */
  lemma SendConservesExactly(w: World, widget: nat, message: Message, connected: bool, minted: bool, written: bool)
    requires Conserved(w) && widget < |w.widgets|
    ensures Conserved(StartDispatch(w.(accepted := w.accepted + [message]), widget, message, None, connected, minted,
                                    written))
       <==> Kept(w, widget, connected, minted, written)
  {
    var accepted := w.(accepted := w.accepted + [message]);
    var after, kept := StartDispatch(accepted, widget, message, None, connected, minted, written),
        Kept(w, widget, connected, minted, written);
    forall n ensures Places(after, n) == Places(w, n) + (if kept then One(message, n) else 0)
                  && Copies(after.accepted, n) == Copies(w.accepted, n) + One(message, n) {
      StartDispatchPlaces(accepted, widget, message, None, connected, minted, written, n);
      CopiesAppend(w.accepted, message, n);
      assert Places(accepted, n) == Places(w, n);
    }
    BalanceDecides(w, after, message, kept);
  }

  /** An iteration of a replay conserves if and only if its message reaches the network or is written back. */
  lemma ContinueConservesExactly(w: World, replay: nat, connected: bool, minted: bool, written: bool)
    requires Conserved(w) && IsDue(w, replay)
    ensures Conserved(Continue(w, replay, connected, minted, written))
       <==> Kept(w, w.replays[replay].widget, connected, minted, written)
  {
    var r := w.replays[replay];
    var after, kept := Continue(w, replay, connected, minted, written), Kept(w, r.widget, connected, minted, written);
    var lost := if Rejects(w, r.widget, connected, minted) then r.remaining[1..] else [];
    forall n ensures Places(after, n) + One(r.remaining[0], n) + Copies(lost, n)
           == Places(w, n) + (if kept then One(r.remaining[0], n) else 0) {
      ContinueMoves(w, replay, connected, minted, written, n);
    }
    assert after.accepted == w.accepted;
    BalanceDecides(w, after, r.remaining[0], kept);
  }

  /** The start of a replay: into its list what the queue keeps, and on from there. */
  lemma StartReplayMoves(w: World, widget: nat, connected: bool, cleared: bool, minted: bool, written: bool, n: Message)
    requires widget < |w.widgets| && ReadQueue(w.stored) != []
    ensures var queue := ReadQueue(w.stored);
            Places(StartReplay(w, widget, connected, cleared, minted, written), n)
            + One(queue[0], n) + (if Rejects(w, widget, connected, minted) then Copies(queue[1..], n) else 0)
            == Places(w, n) + (if cleared then 0 else Copies(queue, n))
               + (if Kept(w, widget, connected, minted, written) then One(queue[0], n) else 0)
  {
    var queue := ReadQueue(w.stored);
    var stored := if cleared then Missing else w.stored;
    var begun := w.(stored := stored, replays := w.replays + [Replay(widget, queue, false)]);
    SumAppend(w.replays, Replay(widget, queue, false), RemainingCopies(n));
    assert Places(begun, n) == Places(w, n) + if cleared then 0 else Copies(queue, n);
    ContinueMoves(begun, |w.replays|, connected, minted, written, n);
  }

  /** For a queue of several messages, some message stands twice if it was not cleared. */
  lemma SomeCopyTooMany(queue: seq<Message>)
    requires |queue| > 1
    ensures exists n :: Copies(queue, n) > One(queue[0], n)
  {
    var n := queue[1];
    assert queue == [queue[0]] + ([queue[1]] + queue[2..]);
    CopiesPop(queue, n);
    CopiesPop(queue[1..], n);
    assert Copies(queue, n) > One(queue[0], n);
  }

  /** The start of a replay conserves exactly under the condition on its writes. */
  lemma ReplayConservesExactlyWhenCleared(w: World, widget: nat, connected: bool, cleared: bool, minted: bool,
                                          written: bool)
    requires Conserved(w) && widget < |w.widgets|
    ensures Conserved(StartReplay(w, widget, connected, cleared, minted, written))
       <==> ReplayKeeps(ReadQueue(w.stored), cleared, Kept(w, widget, connected, minted, written),
                        Rejects(w, widget, connected, minted))
  {
    var queue, kept, rejected := ReadQueue(w.stored), Kept(w, widget, connected, minted, written),
        Rejects(w, widget, connected, minted);
    var after := StartReplay(w, widget, connected, cleared, minted, written);
    if queue != [] {
      StartReplayAccepts(w, widget, connected, cleared, minted, written);
      forall n ensures Places(after, n) + OutOfReplay(queue, rejected, n)
             == Places(w, n) + IntoReplay(queue, cleared, kept, n) {
        StartReplayMoves(w, widget, connected, cleared, minted, written, n);
      }
      var sample := ReplayWitness(queue, cleared, kept, rejected);
      BalanceDecides(w, after, sample, ReplayKeeps(queue, cleared, kept, rejected));
    }
  }

  /** What the start of a replay takes from a message's places, and what it adds to them. */
  function OutOfReplay(queue: seq<Message>, rejected: bool, n: Message): nat
    requires queue != []
  {
    One(queue[0], n) + if rejected then Copies(queue[1..], n) else 0
  }

  function IntoReplay(queue: seq<Message>, cleared: bool, kept: bool, n: Message): nat
    requires queue != []
  {
    (if cleared then 0 else Copies(queue, n)) + if kept then One(queue[0], n) else 0
  }

  lemma StartReplayAccepts(w: World, widget: nat, connected: bool, cleared: bool, minted: bool, written: bool)
    ensures StartReplay(w, widget, connected, cleared, minted, written).accepted == w.accepted
  {
  }

  /** A message that shows the imbalance, where there is one. */
  lemma ReplayWitness(queue: seq<Message>, cleared: bool, kept: bool, rejected: bool) returns (sample: Message)
    requires queue != [] && !(kept && rejected)
    ensures ReplayKeeps(queue, cleared, kept, rejected)
            ==> forall n :: IntoReplay(queue, cleared, kept, n) == OutOfReplay(queue, rejected, n)
    ensures !ReplayKeeps(queue, cleared, kept, rejected)
            ==> IntoReplay(queue, cleared, kept, sample) != OutOfReplay(queue, rejected, sample)
  {
    sample := queue[0];
    CopiesPop(queue, queue[0]);
    if !cleared && !kept {
      forall n ensures Copies(queue, n) == One(queue[0], n) + Copies(queue[1..], n) {
        CopiesPop(queue, n);
      }
      if |queue| == 1 {
        assert queue[1..] == [];
      } else if !rejected {
        SomeCopyTooMany(queue);
        sample :| Copies(queue, sample) > One(queue[0], sample);
      }
    }
  }

  /** Exactly when any step of any widget conserves: the storage writes that its message depends on succeed. */
  lemma StepConservesExactly(w: World, step: Step)
    requires Conserved(w)
    ensures Conserved(Next(w, step)) <==> Conserves(w, step)
  {
    match step
    case Mounts(online, connected, cleared, minted, written) =>
      var mounted := w.(widgets := w.widgets + [Widget(online, false)]);
      assert Conserved(mounted) by { WidgetsHoldNothing(w, mounted); }
      if online { ReplayConservesExactlyWhenCleared(mounted, |w.widgets|, connected, cleared, minted, written); }
    case NetworkChanges(widget, online, connected, cleared, minted, written) =>
      if widget < |w.widgets| {
        var changed := w.(widgets := w.widgets[widget := w.widgets[widget].(online := online)]);
        assert Conserved(changed) by { WidgetsHoldNothing(w, changed); }
        if online { ReplayConservesExactlyWhenCleared(changed, widget, connected, cleared, minted, written); }
      }
    case Sends(widget, message, connected, minted, written) =>
      if widget < |w.widgets| { SendConservesExactly(w, widget, message, connected, minted, written); }
    case ReplayContinues(replay, connected, minted, written) =>
      if IsDue(w, replay) { ContinueConservesExactly(w, replay, connected, minted, written); }
    case _ => EndConservesExactly(w, step);
  }

  lemma WidgetsHoldNothing(w: World, after: World)
    requires Conserved(w) && after == w.(widgets := after.widgets)
    ensures Conserved(after)
  {
    forall n ensures Places(after, n) == Copies(after.accepted, n) {
      assert Places(w, n) == Copies(w.accepted, n);
    }
  }

  lemma EndConservesExactly(w: World, step: Step)
    requires Conserved(w) && (step.Answers? || step.StreamEnds? || step.StreamBreaks? || step.ServerHandles?)
    ensures Conserved(Next(w, step)) <==> Conserves(w, step)
  {
    if Conserves(w, step) && WriteSucceeds(step) {
      NextConserves(w, step);
    } else {
      match step
      case Answers(dispatch, answer, written) =>
        if In(w, dispatch, Fetching) && (answer.ServerError? || answer.Broken?) {
          RequeueConservesExactly(w, dispatch, written);
        } else {
          NextConserves(w, Answers(dispatch, answer, true));
        }
      case StreamBreaks(dispatch, written) =>
        if In(w, dispatch, Streaming) { RequeueConservesExactly(w, dispatch, written); }
      case _ =>
    }
  }

  ghost predicate ConservedThroughout(w: World, steps: seq<Step>)
    decreases steps
  {
    Conserved(w) && (steps == [] || ConservedThroughout(Next(w, steps[0]), steps[1..]))
  }

  predicate EveryStepConserves(w: World, steps: seq<Step>)
    decreases steps
  {
    steps == [] || (Conserves(w, steps[0]) && EveryStepConserves(Next(w, steps[0]), steps[1..]))
  }

  /** So a run conserves after every one of its steps if and only if the writes each step depends on succeed. */
  lemma {:induction false} RunConservesExactly(w: World, steps: seq<Step>)
    requires Conserved(w)
    ensures ConservedThroughout(w, steps) <==> EveryStepConserves(w, steps)
    decreases steps
  {
    if steps != [] {
      StepConservesExactly(w, steps[0]);
      if Conserved(Next(w, steps[0])) {
        RunConservesExactly(Next(w, steps[0]), steps[1..]);
      }
    }
  }

  // ---- a session without an identifier

  /** The widget has no dispatch under way and no replay that goes on. */
  predicate Quiet(w: World, widget: nat) {
    && (forall d :: 0 <= d < |w.dispatches| && w.dispatches[d].widget == widget ==> w.dispatches[d].stage == Closed)
    && (forall r :: 0 <= r < |w.replays| && w.replays[r].widget == widget ==> w.replays[r].remaining == [])
  }

  /** And still it is marked as sending. */
  predicate Stuck(w: World, widget: nat) { widget < |w.widgets| && w.widgets[widget].sending && Quiet(w, widget) }

  /** A send that cannot store the session's identifier leaves its message nowhere and its widget sending. */
  lemma SendWithoutIdentifierIsLost(w: World, widget: nat, message: Message, written: bool)
    requires Conserved(w) && widget < |w.widgets| && w.widgets[widget] == Widget(true, false) && message.text != ""
    ensures var after := Next(w, Sends(widget, message, true, false, written));
            && after == w.(accepted := w.accepted + [message], widgets := w.widgets[widget := Widget(true, true)])
            && Places(after, message) + 1 == Copies(after.accepted, message)
            && (Quiet(w, widget) ==> Stuck(after, widget))
  {
    SendConservesExactly(w, widget, message, true, false, written);
    CopiesAppend(w.accepted, message, message);
    assert Places(w, message) == Copies(w.accepted, message);
  }

  /** And a widget that comes online without one loses the whole queue with the dispatch that throws. */
  lemma ReplayWithoutIdentifierLosesTheQueue(w: World, widget: nat, written: bool, n: Message)
    requires widget < |w.widgets| && ReadQueue(w.stored) != []
    ensures var after := Next(w, NetworkChanges(widget, true, true, true, false, written));
            && after.stored == Missing && after.dispatches == w.dispatches && after.requests == w.requests
            && Places(after, n) + Copies(ReadQueue(w.stored), n) == Places(w, n)
  {
    var changed := w.(widgets := w.widgets[widget := w.widgets[widget].(online := true)]);
    StartReplayMoves(changed, widget, true, true, false, written, n);
    CopiesPop(ReadQueue(w.stored), n);
  }

  lemma StartDispatchKeepsStuck(w: World, other: nat, message: Message, replay: Option<nat>, connected: bool,
                                minted: bool, written: bool, widget: nat)
    requires Stuck(w, widget) && other < |w.widgets| && other != widget
    ensures Stuck(StartDispatch(w, other, message, replay, connected, minted, written), widget)
  {
  }

  lemma ContinueKeepsStuck(w: World, replay: nat, connected: bool, minted: bool, written: bool, widget: nat)
    requires Stuck(w, widget) && replay < |w.replays|
    ensures Stuck(Continue(w, replay, connected, minted, written), widget)
  {
    if IsDue(w, replay) {
      var r := w.replays[replay];
      var popped := w.(replays := w.replays[replay := r.(remaining := r.remaining[1..])]);
      assert Stuck(popped, widget);
      StartDispatchKeepsStuck(popped, r.widget, r.remaining[0], Some(replay), connected, minted, written, widget);
    }
  }

  lemma StartReplayKeepsStuck(w: World, other: nat, connected: bool, cleared: bool, minted: bool, written: bool,
                              widget: nat)
    requires Stuck(w, widget) && other != widget
    ensures Stuck(StartReplay(w, other, connected, cleared, minted, written), widget)
  {
    var queue := ReadQueue(w.stored);
    if queue != [] {
      var stored := if cleared then Missing else w.stored;
      var begun := w.(stored := stored, replays := w.replays + [Replay(other, queue, false)]);
      assert Stuck(begun, widget);
      ContinueKeepsStuck(begun, |w.replays|, connected, minted, written, widget);
    }
  }

  /** The widget comes online, and replays what is queued. */
  predicate Reconnects(step: Step, widget: nat) { step.NetworkChanges? && step.widget == widget && step.online }

  lemma CloseKeepsStuck(w: World, dispatch: nat, written: bool, widget: nat)
    requires Stuck(w, widget) && dispatch < |w.dispatches| && w.dispatches[dispatch].stage != Closed
    ensures Stuck(Finish(w, dispatch), widget) && Stuck(Requeue(w, dispatch, written), widget)
  {
  }

  lemma NextKeepsStuck(w: World, step: Step, widget: nat)
    requires Stuck(w, widget) && !Reconnects(step, widget)
    ensures Stuck(Next(w, step), widget)
  {
    match step
    case Mounts(online, connected, cleared, minted, written) =>
      var mounted := w.(widgets := w.widgets + [Widget(online, false)]);
      assert Stuck(mounted, widget);
      StartReplayKeepsStuck(mounted, |w.widgets|, connected, cleared, minted, written, widget);
    case Sends(other, message, connected, minted, written) =>
      if other < |w.widgets| && other != widget {
        StartDispatchKeepsStuck(w.(accepted := w.accepted + [message]), other, message, None, connected, minted,
                                written, widget);
      }
    case NetworkChanges(other, online, connected, cleared, minted, written) =>
      if other < |w.widgets| && other != widget {
        var changed := w.(widgets := w.widgets[other := w.widgets[other].(online := online)]);
        assert Stuck(changed, widget);
        StartReplayKeepsStuck(changed, other, connected, cleared, minted, written, widget);
      }
    case _ => EndKeepsStuck(w, step, widget);
  }

  lemma EndKeepsStuck(w: World, step: Step, widget: nat)
    requires Stuck(w, widget) && !step.Mounts? && !step.Sends? && !step.NetworkChanges?
    ensures Stuck(Next(w, step), widget)
  {
    match step
    case ReplayContinues(replay, connected, minted, written) =>
      if replay < |w.replays| { ContinueKeepsStuck(w, replay, connected, minted, written, widget); }
    case Answers(dispatch, answer, written) =>
      if In(w, dispatch, Fetching) { CloseKeepsStuck(w, dispatch, written, widget); }
    case StreamEnds(dispatch) => if In(w, dispatch, Streaming) { CloseKeepsStuck(w, dispatch, true, widget); }
    case StreamBreaks(dispatch, written) =>
      if In(w, dispatch, Streaming) { CloseKeepsStuck(w, dispatch, written, widget); }
    case ServerHandles(_) =>
  }

  /**
   So a widget whose send threw accepts no further message, whatever any widget, server or network does, until
   it comes online again.
   */
  lemma {:induction false} StuckWidgetAcceptsNothing(w: World, steps: seq<Step>, widget: nat, send: Step)
    requires Stuck(w, widget) && forall i :: 0 <= i < |steps| ==> !Reconnects(steps[i], widget)
    requires send.Sends? && send.widget == widget
    ensures Stuck(Run(w, steps), widget) && Next(Run(w, steps), send) == Run(w, steps)
    decreases steps
  {
    if steps != [] {
      NextKeepsStuck(w, steps[0], widget);
      StuckWidgetAcceptsNothing(Next(w, steps[0]), steps[1..], widget, send);
    }
  }

  // ---- a replay on its own

  /** How one replayed message fares on the network: refused, answered and read to the end, or a retryable failure. */
  datatype Fate = IsRefused | IsStreamed | ServerFails | NetworkFails | StreamFails

  predicate Retried(fate: Fate) { fate.ServerFails? || fate.NetworkFails? || fate.StreamFails? }

  function FateSteps(dispatch: nat, fate: Fate): seq<Step> {
    match fate
    case IsRefused => [Answers(dispatch, Refused, true)]
    case IsStreamed => [Answers(dispatch, Body, true), StreamEnds(dispatch)]
    case ServerFails => [Answers(dispatch, ServerError, true)]
    case NetworkFails => [Answers(dispatch, Broken, true)]
    case StreamFails => [Answers(dispatch, Body, true), StreamBreaks(dispatch, true)]
  }

  /** The rest of a replay whose current message is in flight as the last dispatch. */
  function LoneSteps(replay: nat, dispatch: nat, fates: seq<Fate>): seq<Step>
    decreases fates
  {
    if fates == [] then []
    else FateSteps(dispatch, fates[0]) + [ReplayContinues(replay, true, true, true)]
         + LoneSteps(replay, dispatch + 1, fates[1..])
  }

  function RetriedItems(items: seq<Message>, fates: seq<Fate>): seq<Message>
    requires |items| == |fates|
  {
    if items == [] then []
    else (if Retried(fates[0]) then [items[0]] else []) + RetriedItems(items[1..], fates[1..])
  }

  lemma {:induction false} RunConcat(w: World, a: seq<Step>, b: seq<Step>)
    ensures Run(w, a + b) == Run(Run(w, a), b)
    decreases a
  {
    if a == [] {
      assert a + b == b;
    } else {
      assert (a + b)[1..] == a[1..] + b;
      RunConcat(Next(w, a[0]), a[1..], b);
    }
  }

  /** A replay at rest: it awaits nothing, and its widget is online. */
  predicate AtRest(w: World, replay: nat) {
    && replay < |w.replays|
    && !w.replays[replay].awaiting
    && w.replays[replay].widget < |w.widgets|
    && w.widgets[w.replays[replay].widget].online
  }

  /** A replay whose current message is the last dispatch, at the given stage. */
  predicate OnNetwork(w: World, replay: nat, message: Message, stage: Stage) {
    && w.dispatches != [] && stage != Closed
    && replay < |w.replays|
    && w.replays[replay].widget < |w.widgets|
    && w.widgets[w.replays[replay].widget].online
    && w.dispatches[|w.dispatches| - 1] == Dispatch(w.replays[replay].widget, message, stage, Some(replay))
  }

  predicate InFlight(w: World, replay: nat, message: Message) { OnNetwork(w, replay, message, Fetching) }

  lemma {:induction false} OneStepRun(w: World, a: Step)
    ensures Run(w, [a]) == Next(w, a)
  {
    assert [a][1..] == [];
  }

  lemma {:induction false} TwoStepRun(w: World, a: Step, b: Step)
    ensures Run(w, [a, b]) == Next(Next(w, a), b)
  {
    assert [a, b][1..] == [b];
    OneStepRun(Next(w, a), b);
  }

  /** What a dispatch's end leaves of the replay that awaited it. */
  predicate Settled(w: World, after: World, replay: nat, added: seq<Message>) {
    && AtRest(after, replay)
    && replay < |w.replays| && after.replays[replay].remaining == w.replays[replay].remaining
    && |after.dispatches| == |w.dispatches|
    && ReadQueue(after.stored) == ReadQueue(w.stored) + added
  }

  lemma CloseSettles(w: World, replay: nat, message: Message, stage: Stage)
    requires OnNetwork(w, replay, message, stage)
    ensures Settled(w, Finish(w, |w.dispatches| - 1), replay, [])
    ensures Settled(w, Requeue(w, |w.dispatches| - 1, true), replay, [message])
  {
  }

  lemma BodyStreams(w: World, replay: nat, message: Message)
    requires InFlight(w, replay, message)
    ensures var streaming := Next(w, Answers(|w.dispatches| - 1, Body, true));
            && OnNetwork(streaming, replay, message, Streaming) && streaming.stored == w.stored
            && streaming.replays == w.replays && |streaming.dispatches| == |w.dispatches|
  {
  }

  lemma {:induction false} AnswerSettles(w: World, replay: nat, message: Message, answer: Answer)
    requires InFlight(w, replay, message) && !answer.Body?
    ensures Settled(w, Run(w, [Answers(|w.dispatches| - 1, answer, true)]), replay,
                    if answer.Refused? then [] else [message])
  {
    var d := |w.dispatches| - 1;
    CloseSettles(w, replay, message, Fetching);
    OneStepRun(w, Answers(d, answer, true));
    assert Next(w, Answers(d, answer, true)) == if answer.Refused? then Finish(w, d) else Requeue(w, d, true);
  }

  lemma StreamSettles(w: World, replay: nat, message: Message)
    requires OnNetwork(w, replay, message, Streaming)
    ensures Settled(w, Next(w, StreamEnds(|w.dispatches| - 1)), replay, [])
    ensures Settled(w, Next(w, StreamBreaks(|w.dispatches| - 1, true)), replay, [message])
  {
    CloseSettles(w, replay, message, Streaming);
  }

  lemma {:induction false} BodySettles(w: World, replay: nat, message: Message, ending: Step, added: seq<Message>)
    requires InFlight(w, replay, message)
    requires (ending == StreamEnds(|w.dispatches| - 1) && added == [])
             || (ending == StreamBreaks(|w.dispatches| - 1, true) && added == [message])
    ensures Settled(w, Run(w, [Answers(|w.dispatches| - 1, Body, true), ending]), replay, added)
  {
    var body := Answers(|w.dispatches| - 1, Body, true);
    BodyStreams(w, replay, message);
    StreamSettles(Next(w, body), replay, message);
    TwoStepRun(w, body, ending);
  }

  /** Whatever its fate, a message in flight ends as finished or queued again, and its replay is at rest. */
  lemma {:induction false} FateSettles(w: World, replay: nat, message: Message, fate: Fate)
    requires InFlight(w, replay, message)
    ensures Settled(w, Run(w, FateSteps(|w.dispatches| - 1, fate)), replay, if Retried(fate) then [message] else [])
  {
    var d := |w.dispatches| - 1;
    match fate
    case IsRefused => AnswerSettles(w, replay, message, Refused);
    case ServerFails => AnswerSettles(w, replay, message, ServerError);
    case NetworkFails => AnswerSettles(w, replay, message, Broken);
    case IsStreamed => BodySettles(w, replay, message, StreamEnds(d), []);
    case StreamFails => BodySettles(w, replay, message, StreamBreaks(d, true), [message]);
  }

  /** A replay at rest with messages left puts the next one on the network. */
  lemma ContinueSends(w: World, replay: nat)
    requires AtRest(w, replay)
    ensures var after := Next(w, ReplayContinues(replay, true, true, true)); var r := w.replays[replay];
            && after.stored == w.stored
            && (r.remaining == [] ==> after == w)
            && (r.remaining != [] ==>
                  && InFlight(after, replay, r.remaining[0]) && after.replays[replay].remaining == r.remaining[1..]
                  && |after.dispatches| == |w.dispatches| + 1)
  {
  }

  /**
   A replay with nothing interleaved leaves exactly the messages that failed, in their original order
   and with their original text and key, behind whatever the queue holds.
   */
  lemma {:induction false} LoneReplayRequeuesExactlyTheFailures(w: World, replay: nat, message: Message,
          fates: seq<Fate>)
    requires InFlight(w, replay, message) && |fates| == 1 + |w.replays[replay].remaining|
    ensures ReadQueue(Run(w, LoneSteps(replay, |w.dispatches| - 1, fates)).stored)
         == ReadQueue(w.stored) + RetriedItems([message] + w.replays[replay].remaining, fates)
    decreases fates
  {
    var rest := w.replays[replay].remaining;
    var after := FateMovesOn(w, replay, message, fates);
    if rest == [] {
      NothingLeft(after, replay, |w.dispatches|, fates[1..]);
    } else {
      LoneReplayRequeuesExactlyTheFailures(after, replay, rest[0], fates[1..]);
      assert [rest[0]] + rest[1..] == rest;
    }
    GatherFailures(ReadQueue(w.stored), message, rest, fates);
  }

  lemma {:induction false} NothingLeft(w: World, replay: nat, dispatch: nat, fates: seq<Fate>)
    requires fates == []
    ensures Run(w, LoneSteps(replay, dispatch, fates)) == w && RetriedItems([], fates) == []
  {
  }

  lemma {:induction false} GatherFailures(queue: seq<Message>, message: Message, rest: seq<Message>, fates: seq<Fate>)
    requires |fates| == 1 + |rest|
    ensures (queue + (if Retried(fates[0]) then [message] else [])) + RetriedItems(rest, fates[1..])
         == queue + RetriedItems([message] + rest, fates)
  {
    RetriedFirst(message, rest, fates);
    Regroup(queue, if Retried(fates[0]) then [message] else [], RetriedItems(rest, fates[1..]));
  }

  lemma Regroup(a: seq<Message>, b: seq<Message>, c: seq<Message>)
    ensures (a + b) + c == a + (b + c)
  {
  }

  /** The world in which the replay's next message, if any, is in flight. */
  lemma FateMovesOn(w: World, replay: nat, message: Message, fates: seq<Fate>) returns (after: World)
    requires InFlight(w, replay, message) && fates != []
    ensures Run(w, LoneSteps(replay, |w.dispatches| - 1, fates))
            == Run(after, LoneSteps(replay, |w.dispatches|, fates[1..]))
    ensures ReadQueue(after.stored) == ReadQueue(w.stored) + (if Retried(fates[0]) then [message] else [])
    ensures var rest := w.replays[replay].remaining;
            rest != [] ==>
              && InFlight(after, replay, rest[0]) && after.replays[replay].remaining == rest[1..]
              && |after.dispatches| == |w.dispatches| + 1
  {
    var settled := Run(w, FateSteps(|w.dispatches| - 1, fates[0]));
    after := Next(settled, ReplayContinues(replay, true, true, true));
    FateSettles(w, replay, message, fates[0]);
    ContinueSends(settled, replay);
    LoneStepsUnfold(w, replay, |w.dispatches| - 1, fates);
  }

  lemma LoneStepsUnfold(w: World, replay: nat, dispatch: nat, fates: seq<Fate>)
    requires fates != []
    ensures Run(w, LoneSteps(replay, dispatch, fates))
         == Run(Next(Run(w, FateSteps(dispatch, fates[0])), ReplayContinues(replay, true, true, true)),
                LoneSteps(replay, dispatch + 1, fates[1..]))
  {
    var fate, next := FateSteps(dispatch, fates[0]), [ReplayContinues(replay, true, true, true)];
    RunConcat(w, fate + next, LoneSteps(replay, dispatch + 1, fates[1..]));
    RunConcat(w, fate, next);
    OneStepRun(Run(w, fate), next[0]);
  }

  lemma {:induction false} RetriedFirst(message: Message, rest: seq<Message>, fates: seq<Fate>)
    requires |fates| == 1 + |rest|
    ensures RetriedItems([message] + rest, fates)
            == (if Retried(fates[0]) then [message] else []) + RetriedItems(rest, fates[1..])
  {
    assert ([message] + rest)[1..] == rest;
  }

  /** So coming online alone, with every message's fate given, turns the queue into its failures. */
  lemma {:induction false} ReconnectingAloneKeepsExactlyTheFailures(w: World, widget: nat, fates: seq<Fate>)
    requires widget < |w.widgets| && |fates| == |ReadQueue(w.stored)|
    ensures var begun := Next(w, NetworkChanges(widget, true, true, true, true, true));
            ReadQueue(Run(begun, LoneSteps(|w.replays|, |w.dispatches|, fates)).stored)
              == RetriedItems(ReadQueue(w.stored), fates)
  {
    var queue := ReadQueue(w.stored);
    var begun := Next(w, NetworkChanges(widget, true, true, true, true, true));
    if queue != [] {
      assert InFlight(begun, |w.replays|, queue[0]) && begun.replays[|w.replays|].remaining == queue[1..];
      assert begun.stored == Missing && |begun.dispatches| == |w.dispatches| + 1;
      LoneReplayRequeuesExactlyTheFailures(begun, |w.replays|, queue[0], fates);
      assert [queue[0]] + queue[1..] == queue;
    }
  }

  // ---- one turn for one message

  /** Whatever is queued, replayed, dispatched or requested was accepted, text and key together. */
  predicate Known(w: World) {
    && (forall i :: 0 <= i < |ReadQueue(w.stored)| ==> ReadQueue(w.stored)[i] in w.accepted)
    && (forall r, i ::
         0 <= r < |w.replays| && 0 <= i < |w.replays[r].remaining| ==> w.replays[r].remaining[i] in w.accepted)
    && (forall d :: 0 <= d < |w.dispatches| ==> w.dispatches[d].message in w.accepted)
    && (forall q :: 0 <= q < |w.requests| ==> w.requests[q] in w.accepted)
    && (forall t :: 0 <= t < |w.turns| ==> w.turns[t] in w.accepted)
    && DistinctKeys(w.turns)
  }

  lemma StartDispatchKnown(w: World, widget: nat, message: Message, replay: Option<nat>, connected: bool, minted: bool,
                           written: bool)
    requires Known(w) && widget < |w.widgets| && message in w.accepted
    ensures Known(StartDispatch(w, widget, message, replay, connected, minted, written))
  {
  }

  lemma ContinueKnown(w: World, replay: nat, connected: bool, minted: bool, written: bool)
    requires Known(w) && replay < |w.replays|
    ensures Known(Continue(w, replay, connected, minted, written))
  {
    var r := w.replays[replay];
    if !(r.awaiting || r.remaining == [] || r.widget >= |w.widgets|) {
      var popped := w.(replays := w.replays[replay := r.(remaining := r.remaining[1..])]);
      assert Known(popped) by {
        forall i | 0 <= i < |r.remaining[1..]| ensures r.remaining[1..][i] in w.accepted {
          assert r.remaining[1..][i] == w.replays[replay].remaining[i + 1];
        }
      }
      StartDispatchKnown(popped, r.widget, r.remaining[0], Some(replay), connected, minted, written);
    }
  }

  lemma StartReplayKnown(w: World, widget: nat, connected: bool, cleared: bool, minted: bool, written: bool)
    requires Known(w)
    ensures Known(StartReplay(w, widget, connected, cleared, minted, written))
  {
    var queue := ReadQueue(w.stored);
    if queue != [] {
      var stored := if cleared then Missing else w.stored;
      var begun := w.(stored := stored, replays := w.replays + [Replay(widget, queue, false)]);
      assert Known(begun);
      ContinueKnown(begun, |w.replays|, connected, minted, written);
    }
  }

  lemma RequeueKnown(w: World, dispatch: nat, written: bool)
    requires Known(w) && dispatch < |w.dispatches|
    ensures Known(Requeue(w, dispatch, written)) && Known(Finish(w, dispatch))
  {
  }

  lemma SendKnown(w: World, step: Step)
    requires Known(w) && step.Sends?
    ensures Known(Next(w, step))
  {
    if step.widget < |w.widgets| {
      var accepted := w.(accepted := w.accepted + [step.message]);
      assert Known(accepted);
      StartDispatchKnown(accepted, step.widget, step.message, None, step.connected, step.minted, step.written);
    }
  }

  lemma ReplayKnown(w: World, step: Step)
    requires Known(w) && (step.Mounts? || step.NetworkChanges? || step.ReplayContinues?)
    ensures Known(Next(w, step))
  {
    match step
    case Mounts(online, connected, cleared, minted, written) =>
      if online {
        StartReplayKnown(w.(widgets := w.widgets + [Widget(online, false)]), |w.widgets|, connected, cleared, minted,
                         written);
      }
    case NetworkChanges(widget, online, connected, cleared, minted, written) =>
      if widget < |w.widgets| && online {
        StartReplayKnown(w.(widgets := w.widgets[widget := w.widgets[widget].(online := online)]), widget, connected,
                         cleared, minted, written);
      }
    case ReplayContinues(replay, connected, minted, written) =>
      if replay < |w.replays| { ContinueKnown(w, replay, connected, minted, written); }
  }

  lemma NextKnown(w: World, step: Step)
    requires Known(w)
    ensures Known(Next(w, step))
  {
    match step
    case Sends(_, _, _, _, _) => SendKnown(w, step);
    case Answers(dispatch, _, written) => if In(w, dispatch, Fetching) { RequeueKnown(w, dispatch, written); }
    case StreamEnds(dispatch) => if In(w, dispatch, Streaming) { RequeueKnown(w, dispatch, true); }
    case StreamBreaks(dispatch, written) => if In(w, dispatch, Streaming) { RequeueKnown(w, dispatch, written); }
    case ServerHandles(_) =>
    case _ => ReplayKnown(w, step);
  }

  lemma {:induction false} RunKnown(w: World, steps: seq<Step>)
    requires Known(w)
    ensures Known(Run(w, steps))
    decreases steps
  {
    if steps != [] {
      NextKnown(w, steps[0]);
      RunKnown(Next(w, steps[0]), steps[1..]);
    }
  }

  lemma SameKeySameMessage(items: seq<Message>, m: Message, n: Message)
    requires DistinctKeys(items) && m in items && n in items && m.key == n.key
    ensures m == n
  {
  }

  /**
   At most one turn per message. Every request for a message carries its text
   and its one key, so a server that drops a key it has seen makes at most one
   turn of it, over any faults, failed storage writes included.
   */
  lemma {:induction false} AtMostOneTurnPerMessage(stored: Stored, steps: seq<Step>, m: Message)
    requires var w := Run(Start(stored), steps); DistinctKeys(w.accepted) && m in w.accepted
    ensures var w := Run(Start(stored), steps);
            && (forall q :: 0 <= q < |w.requests| && w.requests[q].key == m.key ==> w.requests[q] == m)
            && (forall t, u :: 0 <= t < |w.turns| && 0 <= u < |w.turns| && w.turns[t].key == m.key ==>
                                 w.turns[u].key == m.key ==> t == u)
            && (forall t :: 0 <= t < |w.turns| && w.turns[t].key == m.key ==> w.turns[t] == m)
  {
    RunKnown(Start(stored), steps);
    var w := Run(Start(stored), steps);
    forall q | 0 <= q < |w.requests| && w.requests[q].key == m.key ensures w.requests[q] == m {
      SameKeySameMessage(w.accepted, w.requests[q], m);
    }
    forall t | 0 <= t < |w.turns| && w.turns[t].key == m.key ensures w.turns[t] == m {
      SameKeySameMessage(w.accepted, w.turns[t], m);
    }
  }
}
