/**
 A page with any number of storefront widgets over one session storage. A suspended dispatch or drain is
 kept as the record of what it will go on with; each method is the code from one await to the next and is
 proved to make exactly one step of the world of widgets. So everything proved of all runs of that world,
 from any queue an earlier page left, holds of all runs of these methods.
 */
module StorefrontPages {
  import opened OfflineQueue
  import opened Options
  import opened StorefrontWidgets

  ghost function Values(widgets: seq<StorefrontWidget>): (values: seq<Widget>)
    reads widgets
    ensures |values| == |widgets|
    ensures forall i :: 0 <= i < |widgets| ==> values[i] == Widget(widgets[i].isOnline, widgets[i].isSending)
  {
    seq(|widgets|, i requires 0 <= i < |widgets| reads widgets => Widget(widgets[i].isOnline, widgets[i].isSending))
  }

  /** The dispatch is closed, and the replay that awaited it may go on. */
  ghost function Returned(w: World, dispatch: nat): World
    requires dispatch < |w.dispatches|
  {
    var d := w.dispatches[dispatch];
    w.(dispatches := w.dispatches[dispatch := d.(stage := Closed)],
       replays := if d.replay.Some? && d.replay.value < |w.replays|
                  then w.replays[d.replay.value := w.replays[d.replay.value].(awaiting := false)] else w.replays)
  }

  /** The dispatch is on the network, and the replay that started it awaits it. */
  ghost function Entered(w: World, d: Dispatch): World {
    w.(dispatches := w.dispatches + [d],
       replays := if d.replay.Some? && d.replay.value < |w.replays|
                  then w.replays[d.replay.value := w.replays[d.replay.value].(awaiting := true)] else w.replays,
       requests := w.requests + [d.message])
  }

  /** What the widget's own statements at a dispatch's end leave. */
  function LeftBy(w: World, d: Dispatch, requeued: bool, written: bool): World {
    SetSending(w, d.widget, false).(stored := if requeued then Enqueue(w.stored, d.message, written) else w.stored)
  }

  /** What they leave at its start, and whether it goes on. */
  function BegunBy(w: World, widget: nat, message: Message, launch: Launch, written: bool): World {
    if launch.Queued? then w.(stored := Enqueue(w.stored, message, written)) else SetSending(w, widget, true)
  }

  predicate Distinct(widgets: seq<StorefrontWidget>) {
    forall i, j :: 0 <= i < j < |widgets| ==> widgets[i] != widgets[j]
  }

  class StorefrontPage {
    const storage: SessionStorage
    var widgets: seq<StorefrontWidget>
    var dispatches: seq<Dispatch>
    var replays: seq<Replay>
    ghost var finished: seq<Message>
    ghost var accepted: seq<Message>
    ghost var requests: seq<Message>
    ghost var turns: seq<Message>
    ghost var values: seq<Widget>

    /** Every widget is on the page's storage, and what is suspended names widgets and drains that exist. */
    ghost predicate Registered()
      reads `widgets, `dispatches, `replays
    {
      && Distinct(widgets)
      && (forall i :: 0 <= i < |widgets| ==> widgets[i].storage == storage)
      && (forall d :: 0 <= d < |dispatches| ==>
            dispatches[d].widget < |widgets| && (dispatches[d].replay.Some? ==> dispatches[d].replay.value < |replays|))
      && (forall r :: 0 <= r < |replays| ==> replays[r].widget < |widgets|)
    }

    /** And `values` is what the widgets hold. */
    ghost predicate Valid()
      reads `widgets, `dispatches, `replays, `values, widgets
    {
      Registered() && values == Values(widgets)
    }

    ghost function State(): World
      reads this, storage
    {
      World(storage.entry, values, dispatches, replays, finished, accepted, requests, turns)
    }

    /** One widget has changed and no other. */
    ghost method Refresh(widget: nat)
      requires Registered() && widget < |widgets| == |values|
      requires forall i ::
                0 <= i < |widgets| && i != widget ==> values[i] == Widget(widgets[i].isOnline, widgets[i].isSending)
      modifies `values
      ensures Valid() && values == old(values)[widget := Widget(widgets[widget].isOnline, widgets[widget].isSending)]
    {
      values := values[widget := Widget(widgets[widget].isOnline, widgets[widget].isSending)];
      assert values == Values(widgets);
    }

    /** A page that loads over the queue an earlier one left. */
    constructor (storage: SessionStorage)
      ensures Valid() && this.storage == storage && State() == OfflineQueue.Start(storage.entry)
    {
      this.storage := storage;
      widgets, values, dispatches, replays, finished, requests, turns := [], [], [], [], [], [], [];
      accepted := ReadQueue(storage.entry);
      new;
      assert Values(widgets) == [];
    }

    /** A dispatch up to its fetch, on behalf of a send or of a replay that will await it. */
    method Launch(widget: nat, message: Message, replay: Option<nat>, connected: bool, minted: bool, written: bool)
      requires Valid() && widget < |widgets| && (replay.Some? ==> replay.value < |replays|)
      modifies `dispatches, `replays, `requests, `values, storage, widgets[widget]
      ensures Valid() && State() == StartDispatch(old(State()), widget, message, replay, connected, minted, written)
    {
      var launch := Begin(widget, message, connected, minted, written);
      if launch.Launched? {
        Suspend(Dispatch(widget, message, Fetching, replay));
      } else if launch.Thrown? {
        GiveUp(replay);
      }
    }

    /** A replay whose dispatch threw has ended. */
    method GiveUp(replay: Option<nat>)
      requires Valid()
      modifies `replays
      ensures Valid() && State() == old(State()).(replays := Abandon(old(replays), replay))
    {
      replays := Abandon(replays, replay);
    }

    method Begin(widget: nat, message: Message, connected: bool, minted: bool, written: bool) returns (launch: Launch)
      requires Valid() && widget < |widgets|
      modifies `values, storage, widgets[widget]
      ensures Valid() && launch == LaunchOf(values[widget].online, connected, minted)
      ensures State() == BegunBy(old(State()), widget, message, launch, written)
    {
      launch := widgets[widget].BeginDispatch(message, connected, minted, written);
      Refresh(widget);
      assert launch.Queued? ==> values == old(values);
    }

    /** The dispatch awaits its fetch, and its replay awaits it. */
    method Suspend(d: Dispatch)
      requires Valid() && d.widget < |widgets| && (d.replay.Some? ==> d.replay.value < |replays|)
      modifies `dispatches, `replays, `requests
      ensures Valid() && State() == Entered(old(State()), d)
    {
      dispatches := dispatches + [d];
      if d.replay.Some? {
        replays := replays[d.replay.value := replays[d.replay.value].(awaiting := true)];
      }
      requests := requests + [d.message];
    }

    /** The next iteration of a drain's loop, if the drain awaits nothing and has messages left. */
    method Iterate(replay: nat, connected: bool, minted: bool, written: bool)
      requires Valid() && replay < |replays|
      modifies `dispatches, `replays, `requests, `values, storage, widgets[replays[replay].widget]
      ensures Valid() && State() == Continue(old(State()), replay, connected, minted, written)
    {
      var r := replays[replay];
      if r.awaiting || |r.remaining| == 0 {
        return;
      }
      replays := replays[replay := r.(remaining := r.remaining[1..])];
      Launch(r.widget, r.remaining[0], Some(replay), connected, minted, written);
    }

    /** The queue is read, and emptied if it is to be replayed. */
    method BeginReplay(widget: nat, cleared: bool) returns (begun: bool)
      requires Valid() && widget < |widgets|
      modifies `replays, storage
      ensures Valid() && begun == (ReadQueue(old(storage.entry)) != [])
      ensures var w := old(State());
              State() == if !begun then w
                         else w.(stored := if cleared then Missing else w.stored,
                                 replays := w.replays + [Replay(widget, ReadQueue(w.stored), false)])
    {
      var queue := widgets[widget].BeginDrain(cleared);
      begun := |queue| != 0;
      if begun {
        replays := replays + [Replay(widget, queue, false)];
      }
    }

    /** `drainOfflineQueue` up to its first await. */
    method Drain(widget: nat, connected: bool, cleared: bool, minted: bool, written: bool)
      requires Valid() && widget < |widgets|
      modifies `dispatches, `replays, `requests, `values, storage, widgets[widget]
      ensures Valid() && State() == StartReplay(old(State()), widget, connected, cleared, minted, written)
    {
      var begun := BeginReplay(widget, cleared);
      if begun {
        Iterate(|replays| - 1, connected, minted, written);
      }
    }

    /** `connectedCallback` of a new widget. */
    method Mount(online: bool, connected: bool, cleared: bool, minted: bool, written: bool)
      requires Valid()
      modifies this, storage
      ensures Valid() && State() == Next(old(State()), Mounts(online, connected, cleared, minted, written))
    {
      AddWidget(online);
      if online {
        Drain(|widgets| - 1, connected, cleared, minted, written);
      }
    }

    method AddWidget(online: bool)
      requires Valid()
      modifies `widgets, `values
      ensures Valid() && |widgets| == |old(widgets)| + 1 && fresh(widgets[|widgets| - 1])
      ensures State() == old(State()).(widgets := old(State()).widgets + [Widget(online, false)])
    {
      var widget := new StorefrontWidget(storage, online);
      widgets := widgets + [widget];
      values := values + [Widget(online, false)];
      assert values == Values(widgets);
    }

    method HandleSend(widget: nat, message: Message, connected: bool, minted: bool, written: bool)
      requires Valid() && widget < |widgets|
      modifies this, storage, widgets[widget]
      ensures Valid() && State() == Next(old(State()), Sends(widget, message, connected, minted, written))
    {
      if |message.text| == 0 || widgets[widget].isSending {
        return;
      }
      accepted := accepted + [message];
      Launch(widget, message, None, connected, minted, written);
    }

    method SetOnline(widget: nat, online: bool)
      requires Valid() && widget < |widgets|
      modifies widgets[widget], `values
      ensures var w := old(State());
              Valid() && State() == w.(widgets := w.widgets[widget := w.widgets[widget].(online := online)])
    {
      widgets[widget].isOnline := online;
      Refresh(widget);
    }

    method HandleNetworkChange(widget: nat, online: bool, connected: bool, cleared: bool, minted: bool, written: bool)
      requires Valid() && widget < |widgets|
      modifies this, storage, widgets[widget]
      ensures Valid() && State() == Next(old(State()),
                                         NetworkChanges(widget, online, connected, cleared, minted, written))
    {
      SetOnline(widget, online);
      if online {
        Drain(widget, connected, cleared, minted, written);
      }
    }

    /** A drain goes on behind the dispatch it awaited. */
    method ResumeDrain(replay: nat, connected: bool, minted: bool, written: bool)
      requires Valid() && replay < |replays|
      modifies this, storage, widgets[replays[replay].widget]
      ensures Valid() && State() == Next(old(State()), ReplayContinues(replay, connected, minted, written))
    {
      Iterate(replay, connected, minted, written);
    }

    /** The dispatch is over, its message delivered or not, and the replay that awaited it may go on. */
    method Return(dispatch: nat, delivered: bool)
      requires Valid() && dispatch < |dispatches|
      modifies `dispatches, `replays, `finished
      ensures var w := old(State());
              var told := if delivered then w.(finished := w.finished + [w.dispatches[dispatch].message]) else w;
              Valid() && State() == Returned(told, dispatch)
    {
      var d := dispatches[dispatch];
      if delivered {
        finished := finished + [d.message];
      }
      dispatches := dispatches[dispatch := d.(stage := Closed)];
      if d.replay.Some? {
        replays := replays[d.replay.value := replays[d.replay.value].(awaiting := false)];
      }
    }

    /** A dispatch's last statements in its widget. */
    method EndInWidget(dispatch: nat, interrupted: bool, written: bool)
      requires Valid() && dispatch < |dispatches|
      modifies `values, storage, widgets[dispatches[dispatch].widget]
      ensures Valid() && State() == LeftBy(old(State()), dispatches[dispatch], interrupted, written)
    {
      var d := dispatches[dispatch];
      widgets[d.widget].EndDispatch(d.message, interrupted, written);
      Refresh(d.widget);
    }

    method End(dispatch: nat, interrupted: bool, written: bool)
      requires Valid() && dispatch < |dispatches|
      modifies `dispatches, `replays, `finished, `values, storage, widgets[dispatches[dispatch].widget]
      ensures Valid() && State() ==
                if interrupted then Requeue(old(State()), dispatch, written) else Finish(old(State()), dispatch)
    {
      EndInWidget(dispatch, interrupted, written);
      Return(dispatch, !interrupted);
    }

    /** What the widget makes of a reply: whether it goes on to a body, and otherwise what it leaves. */
    method HearReply(dispatch: nat, head: Head, written: bool) returns (streams: bool)
      requires Valid() && dispatch < |dispatches|
      modifies `values, storage, widgets[dispatches[dispatch].widget]
      ensures Valid() && streams == AnswerOf(head).Body?
      ensures State() ==
                if streams then old(State())
                else LeftBy(old(State()), dispatches[dispatch], !AnswerOf(head).Refused?, written)
    {
      var d := dispatches[dispatch];
      streams := widgets[d.widget].OnReply(d.message, head, written);
      Refresh(d.widget);
      assert streams ==> values == old(values);
    }

    /** The fetch of a dispatch settles. */
    method OnReply(dispatch: nat, head: Head, written: bool)
      requires Valid() && dispatch < |dispatches| && dispatches[dispatch].stage == Fetching
      modifies this, storage, widgets[dispatches[dispatch].widget]
      ensures Valid() && State() == Next(old(State()), Answers(dispatch, AnswerOf(head), written))
      ensures |dispatches| == |old(dispatches)| && dispatches[dispatch].message == old(dispatches[dispatch].message)
      ensures HasStream(head) ==>
                && storage.entry == old(storage.entry) && finished == old(finished)
                && dispatches[dispatch].stage == Streaming
      ensures GivesUp(head) ==>
                && storage.entry == old(storage.entry) && dispatches[dispatch].stage == Closed
                && finished == old(finished) + [dispatches[dispatch].message]
      ensures !HasStream(head) && !GivesUp(head) ==>
                && KeptIn(storage.entry, old(storage.entry), dispatches[dispatch].message, written)
                && finished == old(finished) && dispatches[dispatch].stage == Closed
    {
      var streams := HearReply(dispatch, head, written);
      if streams {
        dispatches := dispatches[dispatch := dispatches[dispatch].(stage := Streaming)];
      } else {
        Return(dispatch, AnswerOf(head).Refused?);
      }
    }

    /** The last read of a stream: its end, or an error. */
    method OnStreamOver(dispatch: nat, broke: bool, written: bool)
      requires Valid() && dispatch < |dispatches| && dispatches[dispatch].stage == Streaming
      modifies this, storage, widgets[dispatches[dispatch].widget]
      ensures Valid()
      ensures State() == Next(old(State()), if broke then StreamBreaks(dispatch, written) else StreamEnds(dispatch))
      ensures |dispatches| == |old(dispatches)| && dispatches[dispatch].message == old(dispatches[dispatch].message)
      ensures finished == old(finished) + if broke then [] else [dispatches[dispatch].message]
      ensures if broke then KeptIn(storage.entry, old(storage.entry), dispatches[dispatch].message, written)
              else storage.entry == old(storage.entry)
    {
      End(dispatch, broke, written);
    }

    /** The server's turn for a request that reached it: once per key. */
    ghost method OnServerHandles(request: nat)
      requires Valid() && request < |requests|
      modifies `turns
      ensures Valid() && State() == Next(old(State()), ServerHandles(request))
      ensures var seen := exists t :: 0 <= t < |old(turns)| && old(turns)[t].key == requests[request].key;
              turns == old(turns) + if seen then [] else [requests[request]]
    {
      if forall t :: 0 <= t < |turns| ==> turns[t].key != requests[request].key {
        turns := turns + [requests[request]];
      }
    }
  }
}
