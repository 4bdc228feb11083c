/** What single steps of the page do, said without the functions the steps are made of. */
module QueueSteps {
  import opened OfflineQueue
  import opened Options

  /** The queue a storage entry can be read as. */
  predicate Reads(stored: Stored, queue: seq<Message>) {
    if stored.Queue? then queue == stored.items else queue == []
  }

  /** The dispatches and the requests after a dispatch has reached the network for a widget. */
  predicate GoesOut(w: World, next: World, widget: nat, message: Message, replay: Option<nat>) {
    && next.dispatches == w.dispatches + [Dispatch(widget, message, Fetching, replay)]
    && next.requests == w.requests + [message]
    && |next.widgets| > widget && next.widgets[widget].sending
  }

  predicate StaysIn(w: World, next: World) { next.dispatches == w.dispatches && next.requests == w.requests }

  /**
   A send with some text, from a widget that is not sending, is accepted; offline it goes behind the stored queue, and
   online to the network, if the session has an identifier. Any other send changes nothing.
   */
  lemma SendGoesOutOrBehindTheQueue(w: World, widget: nat, message: Message, connected: bool, minted: bool,
                                    written: bool, queue: seq<Message>)
    requires widget < |w.widgets| && Reads(w.stored, queue)
    ensures var next := Next(w, Sends(widget, message, connected, minted, written));
            var online := w.widgets[widget].online && connected;
            if message.text == "" || w.widgets[widget].sending then next == w
            else
              && next.accepted == w.accepted + [message] && next.finished == w.finished && next.replays == w.replays
              && (online && minted ==> GoesOut(w, next, widget, message, None))
              && (!online || !minted ==> StaysIn(w, next))
              && next.stored == if online || !written then w.stored else Queue(queue + [message])
  {
  }

  /** A widget mounted, or brought back, while the page is online replays the stored queue from its first message. */
  ghost predicate Replays(w: World, next: World, widget: nat, queue: seq<Message>, connected: bool, cleared: bool,
                          minted: bool, written: bool)
  {
    var rest := if cleared then Missing else w.stored;
    && next.accepted == w.accepted && next.finished == w.finished
    && if queue == [] then StaysIn(w, next) && next.stored == w.stored && next.replays == w.replays
       else
         && (connected && minted ==>
               && GoesOut(w, next, widget, queue[0], Some(|w.replays|)) && next.stored == rest
               && next.replays == w.replays + [Replay(widget, queue[1..], true)])
         && (connected && !minted ==>
               && StaysIn(w, next) && next.stored == rest
               && next.replays == w.replays + [Replay(widget, [], false)])
         && (!connected ==>
               && StaysIn(w, next) && next.replays == w.replays + [Replay(widget, queue[1..], false)]
               && next.stored == if !written then rest else Queue((if cleared then [] else queue) + [queue[0]]))
  }

  lemma OnlineWidgetReplays(w: World, widget: nat, connected: bool, cleared: bool, minted: bool, written: bool,
                            queue: seq<Message>)
    requires widget < |w.widgets| && w.widgets[widget].online && Reads(w.stored, queue)
    ensures Replays(w, StartReplay(w, widget, connected, cleared, minted, written), widget, queue, connected, cleared,
                    minted, written)
  {
  }

  /** Mounting adds a widget, and replays the stored queue if the page is online. */
  lemma MountReplays(w: World, online: bool, connected: bool, cleared: bool, minted: bool, written: bool,
                     queue: seq<Message>)
    requires Reads(w.stored, queue)
    ensures var next := Next(w, Mounts(online, connected, cleared, minted, written));
            && |next.widgets| == |w.widgets| + 1 && next.widgets[..|w.widgets|] == w.widgets
            && next.widgets[|w.widgets|].online == online
            && (online ==> Replays(w, next, |w.widgets|, queue, connected, cleared, minted, written))
            && (!online ==> next == w.(widgets := next.widgets) && !next.widgets[|w.widgets|].sending)
  {
    if online {
      var mounted := w.(widgets := w.widgets + [Widget(online, false)]);
      OnlineWidgetReplays(mounted, |w.widgets|, connected, cleared, minted, written, queue);
      StartReplayWidgets(mounted, |w.widgets|, connected, cleared, minted, written);
    }
  }

  /** A network change sets the flag, and replays the stored queue if the page is online again. */
  lemma NetworkChangeReplays(w: World, widget: nat, online: bool, connected: bool, cleared: bool, minted: bool,
                             written: bool, queue: seq<Message>)
    requires widget < |w.widgets| && Reads(w.stored, queue)
    ensures var next := Next(w, NetworkChanges(widget, online, connected, cleared, minted, written));
            && |next.widgets| == |w.widgets| && next.widgets[widget].online == online
            && (online ==> Replays(w, next, widget, queue, connected, cleared, minted, written))
            && (!online ==> next == w.(widgets := w.widgets[widget := next.widgets[widget]])
                            && next.widgets[widget].sending == w.widgets[widget].sending)
  {
    if online {
      var changed := w.(widgets := w.widgets[widget := w.widgets[widget].(online := online)]);
      OnlineWidgetReplays(changed, widget, connected, cleared, minted, written, queue);
      StartReplayWidgets(changed, widget, connected, cleared, minted, written);
    }
  }

  lemma StartReplayWidgets(w: World, widget: nat, connected: bool, cleared: bool, minted: bool, written: bool)
    requires widget < |w.widgets|
    ensures var next := StartReplay(w, widget, connected, cleared, minted, written);
            && |next.widgets| == |w.widgets| && next.widgets[widget].online == w.widgets[widget].online
            && forall i :: 0 <= i < |w.widgets| && i != widget ==> next.widgets[i] == w.widgets[i]
  {
  }

  /** A dispatch that ends leaves its widget free to send and lets the replay that awaited it go on. */
  predicate Freed(w: World, next: World, dispatch: nat)
    requires dispatch < |w.dispatches|
  {
    var d := w.dispatches[dispatch];
    && next.dispatches == w.dispatches[dispatch := d.(stage := Closed)]
    && (d.widget < |w.widgets| ==> |next.widgets| == |w.widgets| && !next.widgets[d.widget].sending)
    && (d.replay.Some? && d.replay.value < |w.replays| ==>
          |next.replays| == |w.replays| && !next.replays[d.replay.value].awaiting
          && next.replays[d.replay.value].remaining == w.replays[d.replay.value].remaining)
  }

  lemma AnswerWithoutBodyFrees(w: World, dispatch: nat, answer: Answer, written: bool)
    requires In(w, dispatch, Fetching) && !answer.Body?
    ensures Freed(w, Next(w, Answers(dispatch, answer, written)), dispatch)
  {
  }

  lemma EndedStreamFrees(w: World, dispatch: nat, written: bool)
    requires In(w, dispatch, Streaming)
    ensures Freed(w, Next(w, StreamEnds(dispatch)), dispatch)
    ensures Freed(w, Next(w, StreamBreaks(dispatch, written)), dispatch)
  {
  }

  // ---- every request is a dispatch

  /** The requests that reached the network are the messages of the dispatches, one for one and in order. */
  predicate RequestsMatch(dispatches: seq<Dispatch>, requests: seq<Message>) {
    |requests| == |dispatches| && forall i :: 0 <= i < |dispatches| ==> requests[i] == dispatches[i].message
  }

  /** The two lists grow together, by at most one, and no dispatch changes its message. */
  predicate GrowTogether(w: World, next: World) {
    || (StaysIn(w, next))
    || (exists message :: next.requests == w.requests + [message]
                          && |next.dispatches| == |w.dispatches| + 1 && w.dispatches <= next.dispatches
                          && next.dispatches[|w.dispatches|].message == message)
    || (next.requests == w.requests && |next.dispatches| == |w.dispatches|
        && forall i :: 0 <= i < |w.dispatches| ==> next.dispatches[i].message == w.dispatches[i].message)
  }

  lemma StartDispatchGrows(w: World, widget: nat, message: Message, replay: Option<nat>, connected: bool, minted: bool,
                           written: bool)
    requires widget < |w.widgets|
    ensures GrowTogether(w, StartDispatch(w, widget, message, replay, connected, minted, written))
  {
  }

  lemma ContinueGrows(w: World, replay: nat, connected: bool, minted: bool, written: bool)
    requires replay < |w.replays|
    ensures GrowTogether(w, Continue(w, replay, connected, minted, written))
  {
    if IsDue(w, replay) {
      var r := w.replays[replay];
      StartDispatchGrows(w.(replays := w.replays[replay := r.(remaining := r.remaining[1..])]), r.widget,
                         r.remaining[0], Some(replay), connected, minted, written);
    }
  }

  lemma StartReplayGrows(w: World, widget: nat, connected: bool, cleared: bool, minted: bool, written: bool)
    ensures GrowTogether(w, StartReplay(w, widget, connected, cleared, minted, written))
  {
    var queue := ReadQueue(w.stored);
    if queue != [] {
      ContinueGrows(w.(stored := if cleared then Missing else w.stored,
                       replays := w.replays + [Replay(widget, queue, false)]),
                    |w.replays|, connected, minted, written);
    }
  }

  lemma EndGrows(w: World, step: Step)
    requires step.Answers? || step.StreamEnds? || step.StreamBreaks? || step.ServerHandles?
    ensures GrowTogether(w, Next(w, step))
  {
  }

  lemma BeginGrows(w: World, step: Step)
    requires step.Mounts? || step.Sends? || step.NetworkChanges? || step.ReplayContinues?
    ensures GrowTogether(w, Next(w, step))
  {
    match step
    case Mounts(online, connected, cleared, minted, written) =>
      if online {
        StartReplayGrows(w.(widgets := w.widgets + [Widget(online, false)]), |w.widgets|, connected, cleared, minted,
                         written);
      }
    case Sends(widget, message, connected, minted, written) =>
      if widget < |w.widgets| {
        StartDispatchGrows(w.(accepted := w.accepted + [message]), widget, message, None, connected, minted, written);
      }
    case NetworkChanges(widget, online, connected, cleared, minted, written) =>
      if widget < |w.widgets| && online {
        StartReplayGrows(w.(widgets := w.widgets[widget := w.widgets[widget].(online := online)]), widget, connected,
                         cleared, minted, written);
      }
    case ReplayContinues(replay, connected, minted, written) =>
      if replay < |w.replays| {
        ContinueGrows(w, replay, connected, minted, written);
      }
  }

  lemma GrowingMatches(w: World, next: World)
    requires GrowTogether(w, next) && RequestsMatch(w.dispatches, w.requests)
    ensures RequestsMatch(next.dispatches, next.requests)
  {
  }

  lemma {:induction false} RunMatches(w: World, steps: seq<Step>)
    requires RequestsMatch(w.dispatches, w.requests)
    ensures RequestsMatch(Run(w, steps).dispatches, Run(w, steps).requests)
    decreases steps
  {
    if steps != [] {
      if steps[0].Answers? || steps[0].StreamEnds? || steps[0].StreamBreaks? || steps[0].ServerHandles? {
        EndGrows(w, steps[0]);
      } else {
        BeginGrows(w, steps[0]);
      }
      GrowingMatches(w, Next(w, steps[0]));
      RunMatches(Next(w, steps[0]), steps[1..]);
    }
  }

  /** Over every run, what reached the network is what was dispatched, one request for each dispatch. */
  lemma {:induction false} EveryRequestIsADispatch(stored: Stored, steps: seq<Step>)
    ensures RequestsMatch(Run(Start(stored), steps).dispatches, Run(Start(stored), steps).requests)
  {
    RunMatches(Start(stored), steps);
  }

  /** The server takes a turn for a request whose key it has not seen, and for no other. */
  lemma ServerTurnsExactly(w: World, request: nat)
    ensures var next := Next(w, ServerHandles(request));
            var isNew := request < |w.requests|
                         && forall t :: 0 <= t < |w.turns| ==> w.turns[t].key != w.requests[request].key;
            next == w.(turns := next.turns) && next.turns == w.turns + if isNew then [w.requests[request]] else []
  {
  }
}
