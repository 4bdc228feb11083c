/**
 The storefront widget's fields and the methods that update them, over a session storage it shares with
 every other widget of the page. What other code does to the shared entry while a method awaits is part
 of the exchange it awaits.
 */
module StorefrontWidgets {
  import opened ChunkedStream
  import opened OfflineQueue
  import opened Options
  import opened SseParser

  /** The body of an answer: the decoded chunks read, and whether reading fails after them. */
  datatype Stream = Stream(chunks: seq<string>, breaks: bool)

  /** How a fetch ends. */
  datatype Reply = NoNetwork | Response(status: int, body: Option<Stream>)

  /**
   Everything a dispatch meets outside the widget: `navigator.onLine`, whether the session's identifier is in
   storage or can be put there, the reply, what other code makes of the stored entry and of the online flag while
   the dispatch awaits, and whether its own write succeeds.
   */
  datatype Exchange = Exchange(connected: bool, minted: bool, reply: Reply, meanwhile: Stored -> Stored,
                               onlineAfter: bool, written: bool)

  /** How the head of a dispatch ends: queued, on the network, or with an exception. */
  datatype Launch = Queued | Launched | Thrown

  function LaunchOf(online: bool, connected: bool, minted: bool): Launch {
    if !online || !connected then Queued else if minted then Launched else Thrown
  }

  function Launches(online: bool, e: Exchange): Launch { LaunchOf(online, e.connected, e.minted) }

  /** The statuses a reply is refused with for good, and the ones a response counts as delivered. */
  predicate Forbidden(status: int) { status == 401 || status == 403 || status == 409 }
  predicate Delivered(status: int) { 200 <= status <= 299 }

  /** What is known of a reply before any of its body is read. */
  datatype Head = Unreachable | Answered(status: int, hasBody: bool)

  function HeadOf(reply: Reply): Head {
    if reply.NoNetwork? then Unreachable else Answered(reply.status, reply.body.Some?)
  }

  /** How the world of widgets classes it. */
  function AnswerOf(head: Head): Answer {
    match head
    case Unreachable => Broken
    case Answered(status, hasBody) =>
      if !Delivered(status) then if Forbidden(status) then Refused else ServerError
      else if hasBody then Body else Broken
  }

  /** A reply after which the message is given up: permission denied, or a conflict. */
  predicate GivesUp(head: Head) { head.Answered? && (head.status == 401 || head.status == 403 || head.status == 409) }

  /** A reply that has a body to stream. */
  predicate HasStream(head: Head) { head.Answered? && 200 <= head.status <= 299 && head.hasBody }

  /** The message is the last of the stored queue, behind what could be read before; a failed write changes nothing. */
  predicate KeptIn(entry: Stored, before: Stored, message: Message, written: bool) {
    if !written then entry == before
    else entry == Queue((if before.Queue? then before.items else []) + [message])
  }

  /** A fetch that was answered and not to be retried: given up, or streamed to its end. */
  predicate IsSettled(reply: Reply) {
    && reply.Response?
    && (if 200 <= reply.status <= 299 then reply.body.Some? && !reply.body.value.breaks
        else reply.status == 401 || reply.status == 403 || reply.status == 409)
  }

  /** Whether a dispatch that reached the network ends in the retry path. */
  predicate Retries(reply: Reply) {
    match reply
    case NoNetwork => true
    case Response(status, body) => if Delivered(status) then body.None? || body.value.breaks else !Forbidden(status)
  }

  /** The stream a dispatch reads, if it gets to read one. */
  function StreamOf(online: bool, e: Exchange): Option<Stream> {
    if Launches(online, e).Launched? && e.reply.Response? && Delivered(e.reply.status) then e.reply.body else None
  }

  function AfterDispatch(entry: Stored, online: bool, message: Message, e: Exchange): Stored {
    match Launches(online, e)
    case Queued => Enqueue(entry, message, e.written)
    case Thrown => entry
    case Launched => if Retries(e.reply) then Enqueue(e.meanwhile(entry), message, e.written) else e.meanwhile(entry)
  }

  function OnlineAfter(online: bool, e: Exchange): bool {
    if Launches(online, e).Launched? then e.onlineAfter else online
  }

  /** How many messages a replay gets through: all of them, unless a dispatch throws. */
  function Passed(online: bool, exchanges: seq<Exchange>): (n: nat)
    ensures n <= |exchanges|
  {
    if exchanges == [] || Launches(online, exchanges[0]).Thrown? then 0
    else 1 + Passed(OnlineAfter(online, exchanges[0]), exchanges[1..])
  }

  /** The queue entry once every message has been replayed in turn, or the first dispatch has thrown. */
  function AfterReplay(entry: Stored, online: bool, queue: seq<Message>, exchanges: seq<Exchange>): Stored
    requires |queue| == |exchanges|
    decreases queue
  {
    if queue == [] || Launches(online, exchanges[0]).Thrown? then entry
    else
      AfterReplay(AfterDispatch(entry, online, queue[0], exchanges[0]), OnlineAfter(online, exchanges[0]), queue[1..],
                  exchanges[1..])
  }

  function OnlineAfterReplay(online: bool, exchanges: seq<Exchange>): bool {
    if exchanges == [] || Launches(online, exchanges[0]).Thrown? then online
    else OnlineAfterReplay(OnlineAfter(online, exchanges[0]), exchanges[1..])
  }

  function SentOf(online: bool, message: Message, e: Exchange): seq<Message> {
    if Launches(online, e).Launched? then [message] else []
  }

  /** The messages a replay puts on the network. */
  function Replayed(online: bool, queue: seq<Message>, exchanges: seq<Exchange>): seq<Message>
    requires |queue| == |exchanges|
  {
    if queue == [] || Launches(online, exchanges[0]).Thrown? then []
    else SentOf(online, queue[0], exchanges[0])
         + Replayed(OnlineAfter(online, exchanges[0]), queue[1..], exchanges[1..])
  }

  /** A drain empties a queue that is not empty, if it can, and replays what was in it. */
  function AfterDrain(entry: Stored, online: bool, exchanges: seq<Exchange>, cleared: bool): Stored
    requires |exchanges| == |ReadQueue(entry)|
  {
    var queue := ReadQueue(entry);
    if queue == [] then entry else AfterReplay(if cleared then Missing else entry, online, queue, exchanges)
  }

  /** A replay from one position on, in terms of the replay from the next. */
  lemma {:induction false} ReplayFrom(entry: Stored, online: bool, queue: seq<Message>, exchanges: seq<Exchange>,
                                      i: nat)
    requires |queue| == |exchanges| && i < |queue| && !Launches(online, exchanges[i]).Thrown?
    ensures AfterReplay(entry, online, queue[i..], exchanges[i..])
         == AfterReplay(AfterDispatch(entry, online, queue[i], exchanges[i]), OnlineAfter(online, exchanges[i]),
                        queue[i + 1..], exchanges[i + 1..])
    ensures Replayed(online, queue[i..], exchanges[i..])
         == SentOf(online, queue[i], exchanges[i])
           + Replayed(OnlineAfter(online, exchanges[i]), queue[i + 1..], exchanges[i + 1..])
    ensures OnlineAfterReplay(online, exchanges[i..])
            == OnlineAfterReplay(OnlineAfter(online, exchanges[i]), exchanges[i + 1..])
    ensures Passed(online, exchanges[i..]) == 1 + Passed(OnlineAfter(online, exchanges[i]), exchanges[i + 1..])
  {
    assert queue[i..][1..] == queue[i + 1..] && exchanges[i..][1..] == exchanges[i + 1..];
  }

  lemma Rebracket(a: seq<Message>, b: seq<Message>, c: seq<Message>)
    ensures (a + b) + c == a + (b + c)
  {
  }

  class SessionStorage {
    var entry: Stored

    constructor (stored: Stored)
      ensures entry == stored
    {
      entry := stored;
    }
  }

  class StorefrontWidget {
    const storage: SessionStorage
    var isOnline: bool
    var isSending: bool
    ghost var sent: seq<Message>

    constructor (storage: SessionStorage, online: bool)
      ensures this.storage == storage && isOnline == online && !isSending && sent == []
    {
      this.storage := storage;
      isOnline, isSending, sent := online, false, [];
    }

    method GetOfflineQueue() returns (queue: seq<Message>)
      ensures queue == ReadQueue(storage.entry)
    {
      match storage.entry
      case Queue(items) => queue := items;
      case _ => queue := [];
    }

    method SaveOfflineQueue(queue: seq<Message>, written: bool)
      modifies storage
      ensures storage.entry == if written then WriteQueue(queue) else old(storage.entry)
    {
      if written {
        if |queue| == 0 {
          storage.entry := Missing;
        } else {
          storage.entry := Queue(queue);
        }
      }
    }

    method EnqueueOfflineMessage(message: Message, written: bool)
      modifies storage
      ensures storage.entry == Enqueue(old(storage.entry), message, written)
    {
      var queue := GetOfflineQueue();
      SaveOfflineQueue(queue + [message], written);
    }

    /** Reads the chunks in order and accumulates their text; `broke` is a read that fails. */
    method ReadStream(reader: Reader, stream: Stream) returns (shown: string, broke: bool)
      ensures broke == stream.breaks && shown == ShownText(reader, stream.chunks)
    {
      shown := "";
      for i := 0 to |stream.chunks|
        invariant shown == ShownText(reader, stream.chunks[..i])
      {
        var parsed := ParseStreamChunk(reader, stream.chunks[i]);
        assert stream.chunks[..i + 1][..i] == stream.chunks[..i];
        shown := shown + parsed.text;
      }
      assert stream.chunks[..|stream.chunks|] == stream.chunks;
      broke := stream.breaks;
    }

    /**
     The head of `dispatchStreamMessage`, up to the fetch: queued while offline; otherwise sending, and on the
     network unless the session's identifier can neither be found nor stored, which throws outside the `try`.
     */
    method BeginDispatch(message: Message, connected: bool, minted: bool, written: bool) returns (launch: Launch)
      modifies `isSending, `sent, storage
      ensures launch == LaunchOf(isOnline, connected, minted)
      ensures storage.entry ==
                if launch.Queued? then Enqueue(old(storage.entry), message, written) else old(storage.entry)
      ensures isSending == (!launch.Queued? || old(isSending))
      ensures sent == old(sent) + if launch.Launched? then [message] else []
      ensures launch == Queued <==> !isOnline || !connected
      ensures launch == Launched <==> isOnline && connected && minted
      ensures !isOnline || !connected ==> KeptIn(storage.entry, old(storage.entry), message, written)
    {
      if !isOnline || !connected {
        EnqueueOfflineMessage(message, written);
        return Queued;
      }
      isSending := true;
      if !minted {
        return Thrown;
      }
      sent := sent + [message];
      return Launched;
    }

    /** The `catch` of a dispatch, if it was interrupted, and its `finally`. */
    method EndDispatch(message: Message, interrupted: bool, written: bool)
      modifies `isSending, storage
      ensures storage.entry == if interrupted then Enqueue(old(storage.entry), message, written) else old(storage.entry)
      ensures !isSending
    {
      if interrupted {
        EnqueueOfflineMessage(message, written);
      }
      isSending := false;
    }

    /** What follows the fetch, up to the first read of a body; without one the dispatch is over. */
    method OnReply(message: Message, head: Head, written: bool) returns (streams: bool)
      modifies `isSending, storage
      ensures streams == AnswerOf(head).Body?
      ensures streams ==> storage.entry == old(storage.entry) && isSending == old(isSending)
      ensures !streams ==> !isSending
      ensures !streams ==>
                storage.entry == (if AnswerOf(head).Refused? then old(storage.entry)
                                  else Enqueue(old(storage.entry), message, written))
      ensures streams <==> HasStream(head)
      ensures GivesUp(head) || HasStream(head) ==> storage.entry == old(storage.entry)
      ensures !GivesUp(head) && !HasStream(head) ==> KeptIn(storage.entry, old(storage.entry), message, written)
    {
      streams := false;
      match head {
        case Unreachable => EndDispatch(message, true, written);
        case Answered(status, hasBody) =>
          if !(200 <= status <= 299) {
            if status != 401 && status != 403 && status != 409 {
              EnqueueOfflineMessage(message, written);
            }
            EndDispatch(message, false, written);
          } else if !hasBody {
            EndDispatch(message, true, written);
          } else {
            streams := true;
          }
      }
    }

    method DispatchStreamMessage(reader: Reader, message: Message, e: Exchange) returns (shown: string, threw: bool)
      modifies `isOnline, `isSending, `sent, storage
      ensures threw == Launches(old(isOnline), e).Thrown?
      ensures storage.entry == AfterDispatch(old(storage.entry), old(isOnline), message, e)
      ensures isOnline == OnlineAfter(old(isOnline), e)
      ensures isSending == if Launches(old(isOnline), e).Queued? then old(isSending) else threw
      ensures sent == old(sent) + SentOf(old(isOnline), message, e)
      ensures var stream := StreamOf(old(isOnline), e);
              shown == if stream.Some? then ShownText(reader, stream.value.chunks) else ""
      ensures !old(isOnline) || !e.connected ==>
                !threw && sent == old(sent) && KeptIn(storage.entry, old(storage.entry), message, e.written)
      ensures old(isOnline) && e.connected && !e.minted ==>
                threw && sent == old(sent) && storage.entry == old(storage.entry)
      ensures old(isOnline) && e.connected && e.minted ==>
                && !threw && sent == old(sent) + [message]
                && if IsSettled(e.reply) then storage.entry == e.meanwhile(old(storage.entry))
                   else KeptIn(storage.entry, e.meanwhile(old(storage.entry)), message, e.written)
    {
      shown := "";
      var launch := BeginDispatch(message, e.connected, e.minted, e.written);
      threw := launch.Thrown?;
      if !launch.Launched? {
        return;
      }
      storage.entry := e.meanwhile(storage.entry);
      isOnline := e.onlineAfter;
      var streams := OnReply(message, HeadOf(e.reply), e.written);
      if streams {
        var broke;
        shown, broke := ReadStream(reader, e.reply.body.value);
        EndDispatch(message, broke, e.written);
      }
    }

    /** The replay loop: one dispatch after another, each under its original key; the first that throws ends it. */
    method ReplayAll(reader: Reader, queue: seq<Message>, exchanges: seq<Exchange>) returns (threw: bool)
      requires |exchanges| == |queue|
      modifies `isOnline, `isSending, `sent, storage
      ensures threw == (Passed(old(isOnline), exchanges) < |exchanges|)
      ensures storage.entry == AfterReplay(old(storage.entry), old(isOnline), queue, exchanges)
      ensures sent == old(sent) + Replayed(old(isOnline), queue, exchanges)
      ensures isOnline == OnlineAfterReplay(old(isOnline), exchanges)
    {
      threw := false;
      ghost var whole := Replayed(isOnline, queue, exchanges);
      assert queue[0..] == queue && exchanges[0..] == exchanges;
      for i := 0 to |queue|
        invariant AfterReplay(storage.entry, isOnline, queue[i..], exchanges[i..])
               == AfterReplay(old(storage.entry), old(isOnline), queue, exchanges)
        invariant sent + Replayed(isOnline, queue[i..], exchanges[i..]) == old(sent) + whole
        invariant OnlineAfterReplay(isOnline, exchanges[i..]) == OnlineAfterReplay(old(isOnline), exchanges)
        invariant i + Passed(isOnline, exchanges[i..]) == Passed(old(isOnline), exchanges)
      {
        if !Launches(isOnline, exchanges[i]).Thrown? {
          ReplayFrom(storage.entry, isOnline, queue, exchanges, i);
          Rebracket(sent, SentOf(isOnline, queue[i], exchanges[i]),
                    Replayed(OnlineAfter(isOnline, exchanges[i]), queue[i + 1..], exchanges[i + 1..]));
        }
        var _, failed := DispatchStreamMessage(reader, queue[i], exchanges[i]);
        if failed {
          return true;
        }
      }
    }

    /** Empties the queue before replaying it. */
    method DrainOfflineQueue(reader: Reader, exchanges: seq<Exchange>, cleared: bool) returns (threw: bool)
      requires |exchanges| == |ReadQueue(storage.entry)|
      modifies `isOnline, `isSending, `sent, storage
      ensures threw == (Passed(old(isOnline), exchanges) < |exchanges|)
      ensures storage.entry == AfterDrain(old(storage.entry), old(isOnline), exchanges, cleared)
      ensures sent == old(sent) + Replayed(old(isOnline), old(ReadQueue(storage.entry)), exchanges)
      ensures isOnline == OnlineAfterReplay(old(isOnline), exchanges)
    {
      var queue := BeginDrain(cleared);
      threw := ReplayAll(reader, queue, exchanges);
    }

    /** Reads the queue and empties it, if there is anything to replay. */
    method BeginDrain(cleared: bool) returns (queue: seq<Message>)
      modifies storage
      ensures queue == ReadQueue(old(storage.entry))
      ensures storage.entry == if queue != [] && cleared then Missing else old(storage.entry)
    {
      queue := GetOfflineQueue();
      if |queue| == 0 {
        return;
      }
      SaveOfflineQueue([], cleared);
    }

    /** Refuses empty text and a second send while one is under way; otherwise dispatches under a fresh key. */
    method HandleSend(reader: Reader, text: string, freshKey: string, e: Exchange)
      modifies `isOnline, `isSending, `sent, storage
      ensures var message := Message(text, freshKey); var refused := text == "" || old(isSending);
              && storage.entry == (if refused then old(storage.entry)
                                   else AfterDispatch(old(storage.entry), old(isOnline), message, e))
              && sent == old(sent) + (if refused then [] else SentOf(old(isOnline), message, e))
              && isSending == (if refused then old(isSending) else Launches(old(isOnline), e).Thrown?)
    {
      if |text| == 0 || isSending {
        return;
      }
      var _, _ := DispatchStreamMessage(reader, Message(text, freshKey), e);
    }

    method HandleNetworkChange(reader: Reader, online: bool, exchanges: seq<Exchange>, cleared: bool)
      requires |exchanges| == |ReadQueue(storage.entry)|
      modifies `isOnline, `isSending, `sent, storage
      ensures storage.entry ==
                if online then AfterDrain(old(storage.entry), true, exchanges, cleared) else old(storage.entry)
    {
      isOnline := online;
      if online {
        var _ := DrainOfflineQueue(reader, exchanges, cleared);
      }
    }
  }

  // ---- what a replay leaves

  /** Other code adds these messages to the queue while the exchange is awaited, and nothing else. */
  ghost predicate OnlyAppends(e: Exchange, arrivals: seq<Message>) {
    forall entry: Stored :: ReadQueue(e.meanwhile(entry)) == ReadQueue(entry) + arrivals
  }

  predicate ComesBack(online: bool, e: Exchange) {
    Launches(online, e).Queued? || (Launches(online, e).Launched? && Retries(e.reply))
  }

  /** Arrivals and failed messages, in the order in which their writes happen, up to a dispatch that throws. */
  function Interleaved(online: bool, queue: seq<Message>, exchanges: seq<Exchange>,
                       arrivals: seq<seq<Message>>): seq<Message>
    requires |queue| == |exchanges| == |arrivals|
  {
    if queue == [] || Launches(online, exchanges[0]).Thrown? then []
    else
      (if Launches(online, exchanges[0]).Launched? then arrivals[0] else [])
      + ((if ComesBack(online, exchanges[0]) then [queue[0]] else [])
         + Interleaved(OnlineAfter(online, exchanges[0]), queue[1..], exchanges[1..], arrivals[1..]))
  }

  lemma Regroup(a: seq<Message>, b: seq<Message>, c: seq<Message>, d: seq<Message>)
    ensures ((a + b) + c) + d == a + (b + (c + d))
  {
    Rebracket(a + b, c, d);
    Rebracket(a, b, c + d);
  }

  lemma DispatchAppends(entry: Stored, online: bool, message: Message, e: Exchange, arrivals: seq<Message>)
    requires e.written && OnlyAppends(e, arrivals)
    ensures ReadQueue(AfterDispatch(entry, online, message, e))
         == (ReadQueue(entry) + (if Launches(online, e).Launched? then arrivals else []))
            + (if ComesBack(online, e) then [message] else [])
  {
    assert ReadQueue(e.meanwhile(entry)) == ReadQueue(entry) + arrivals;
  }

  /**
   Whatever sends arrive during a replay, no failed message is lost, doubled or overtaken by a later one, up to a
   dispatch that throws.
   */
  lemma {:induction false} ReplayInterleaves(entry: Stored, online: bool, queue: seq<Message>, exchanges: seq<Exchange>,
                                             arrivals: seq<seq<Message>>)
    requires |queue| == |exchanges| == |arrivals|
    requires forall i :: 0 <= i < |exchanges| ==> exchanges[i].written && OnlyAppends(exchanges[i], arrivals[i])
    ensures ReadQueue(AfterReplay(entry, online, queue, exchanges))
         == ReadQueue(entry) + Interleaved(online, queue, exchanges, arrivals)
    decreases queue
  {
    if queue != [] && !Launches(online, exchanges[0]).Thrown? {
      var e := exchanges[0];
      var next, onlineNext := AfterDispatch(entry, online, queue[0], e), OnlineAfter(online, e);
      DispatchAppends(entry, online, queue[0], e, arrivals[0]);
      ReplayInterleaves(next, onlineNext, queue[1..], exchanges[1..], arrivals[1..]);
      Regroup(ReadQueue(entry), if Launches(online, e).Launched? then arrivals[0] else [],
              if ComesBack(online, e) then [queue[0]] else [],
              Interleaved(onlineNext, queue[1..], exchanges[1..], arrivals[1..]));
    }
  }

  /** The queue's own messages that come back, in their original order. */
  function CameBack(online: bool, queue: seq<Message>, exchanges: seq<Exchange>): seq<Message>
    requires |queue| == |exchanges|
  {
    if queue == [] || Launches(online, exchanges[0]).Thrown? then []
    else
      (if ComesBack(online, exchanges[0]) then [queue[0]] else [])
      + CameBack(OnlineAfter(online, exchanges[0]), queue[1..], exchanges[1..])
  }

  lemma {:induction false} NothingArrives(online: bool, queue: seq<Message>, exchanges: seq<Exchange>,
                                          arrivals: seq<seq<Message>>)
    requires |queue| == |exchanges| == |arrivals| && forall i :: 0 <= i < |arrivals| ==> arrivals[i] == []
    ensures Interleaved(online, queue, exchanges, arrivals) == CameBack(online, queue, exchanges)
  {
    if queue != [] {
      NothingArrives(OnlineAfter(online, exchanges[0]), queue[1..], exchanges[1..], arrivals[1..]);
    }
  }

  /**
   A drain with no interleaved sends leaves exactly the messages that failed or met an offline widget, text and key
   unchanged, in their original order; going offline half way keeps all the rest, a dispatch that throws none of it.
   */
  lemma {:induction false} DrainLeavesExactlyTheFailures(queue: seq<Message>, exchanges: seq<Exchange>)
    requires |queue| == |exchanges|
    requires forall i :: 0 <= i < |exchanges| ==> exchanges[i].written && OnlyAppends(exchanges[i], [])
    ensures ReadQueue(AfterDrain(WriteQueue(queue), true, exchanges, true)) == CameBack(true, queue, exchanges)
  {
    var nothing := seq(|queue|, i => []);
    ReplayInterleaves(Missing, true, queue, exchanges, nothing);
    NothingArrives(true, queue, exchanges, nothing);
  }

  /**
   Every message the replay gets to is put on the network or kept;
   the ones from a dispatch that throws on are neither.
   */
  lemma {:induction false} ReplaySendsOrKeeps(online: bool, queue: seq<Message>, exchanges: seq<Exchange>, m: Message)
    requires |queue| == |exchanges|
    ensures m in queue[..Passed(online, exchanges)]
            <==> m in Replayed(online, queue, exchanges) || m in CameBack(online, queue, exchanges)
  {
    if queue != [] && !Launches(online, exchanges[0]).Thrown? {
      var next := OnlineAfter(online, exchanges[0]);
      ReplaySendsOrKeeps(next, queue[1..], exchanges[1..], m);
      assert queue[..Passed(online, exchanges)] == [queue[0]] + queue[1..][..Passed(next, exchanges[1..])];
    }
  }
}
