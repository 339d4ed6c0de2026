/**
 * The chat screen's state (src/components/chats/ChatArea.js) as an object whose
 * event handlers update it in place: the message list, the draft and the
 * attached media, the local and remote typing flags, the typing-timer slot,
 * and the log of socket events emitted so far. Inbound socket events and
 * fetch results are method arguments; the container's scroll metrics are
 * passed where the handler reads them; a scroll the screen would perform is
 * returned as a flag.
 */
module ChatAreaComponent {
  import opened Wrappers
  import opened Text
  import opened Conversation

  /** The result of a history fetch: a 401, the messages, or any other failure. */
  datatype HistoryReply = HistoryUnauthorized | HistoryLoaded(messages: seq<Message>) | HistoryFailed

  /** The result of posting a message: a 401, the stored message, or any other failure. */
  datatype SendReply = SendUnauthorized | Sent(message: Message) | SendFailed

  /** What `handleSendMessage` ended with. */
  datatype SendOutcome = Refused(check: SendCheck) | SessionExpired | NotDelivered | Delivered

  class ChatArea {
    const viewer: UserId
    const chatId: ChatId
    var messages: seq<Message>
    var loading: bool
    var draft: string
    var media: Option<Media>
    var isTyping: bool
    var otherTyping: bool
    var timerRef: Option<TimerId>
    var liveTimers: set<TimerId>
    var nextTimer: TimerId
    var outbox: seq<Outbound>

    /** The local typing axis as a value. */
    ghost function LocalTyping(): TypingState
      reads this
    {
      TypingState(isTyping, timerRef, liveTimers, nextTimer)
    }

    ghost predicate Valid()
      reads this
    {
      TypingValid(LocalTyping())
    }

    /** The screen mounted for `chatId`, before its history has loaded. */
    constructor (viewer: UserId, chatId: ChatId)
      ensures Valid()
      ensures this.viewer == viewer && this.chatId == chatId
      ensures messages == [] && loading && draft == "" && media == None
      ensures LocalTyping() == NotTyping && !otherTyping && outbox == []
    {
      this.viewer := viewer;
      this.chatId := chatId;
      messages := [];
      loading := true;
      draft := "";
      media := None;
      isTyping := false;
      otherTyping := false;
      timerRef := None;
      liveTimers := {};
      nextTimer := 0;
      outbox := [];
    }

    /**
     * The history effect's run, up to the fetch: the view is scrolled to the
     * bottom when loading has already ended, and JOIN is emitted when there is
     * a chat id. The effect runs on mount and again whenever `loading` changes.
     */
    method BeginHistoryLoad() returns (scroll: bool)
      modifies this`outbox
      ensures outbox == old(outbox) + (if chatId != "" then [EmitJoin(chatId)] else [])
      ensures scroll <==> !loading
    {
      scroll := !loading;
      if chatId != "" {
        outbox := outbox + [EmitJoin(chatId)];
      }
    }

    /**
     * The history fetch's answer: a loaded history replaces the list; a 401
     * reports an expired session and keeps the list; the screen stops loading
     * whatever happened.
     */
    method HistoryAnswered(reply: HistoryReply) returns (sessionExpired: bool)
      modifies this`messages, this`loading
      ensures sessionExpired <==> reply.HistoryUnauthorized?
      ensures messages == (if reply.HistoryLoaded? then reply.messages else old(messages))
      ensures !loading
    {
      sessionExpired := false;
      match reply {
        case HistoryUnauthorized =>
          sessionExpired := true;
        case HistoryLoaded(msgs) =>
          messages := msgs;
        case HistoryFailed =>
      }
      loading := false;
    }

    /**
     * The NEW_MESSAGE handler: the message is appended when it belongs to the
     * open chat and is not the viewer's own; a scroll is scheduled only for an
     * appended message and only when the viewer was at the bottom.
     */
    method ReceiveNewMessage(m: Message, container: Option<Metrics>) returns (scroll: bool)
      modifies this`messages
      ensures messages == ReceiveMessage(old(messages), m, chatId, viewer)
      ensures scroll <==> AcceptsIncoming(m, chatId, viewer) && IsUserAtBottom(container)
    {
      scroll := false;
      var isFromMe := m.senderId == viewer;
      if m.chatId == chatId && !isFromMe {
        messages := messages + [m];
        if IsUserAtBottom(container) {
          scroll := true;
        }
      }
    }

    /**
     * The file input: more than one file is refused with a warning and the
     * media is left as it was; otherwise the first file (or none) is taken.
     */
    method ChooseMedia(files: seq<Media>) returns (warned: bool)
      modifies this`media
      ensures warned <==> |files| > 1
      ensures media == (if |files| > 1 then old(media) else if |files| == 1 then Some(files[0]) else None)
    {
      if |files| > 1 {
        warned := true;
        return;
      }
      warned := false;
      media := if |files| == 1 then Some(files[0]) else None;
    }

    /**
     * `handleSendMessage`: the checks of CheckSend come first and a refused
     * send changes nothing; a delivered message is appended, the draft and the
     * media are cleared, and the screen always scrolls.
     */
    method SendMessage(reply: SendReply) returns (outcome: SendOutcome, scroll: bool)
      modifies this`messages, this`draft, this`media
      ensures CheckSend(old(draft), old(media)) != ReadyToSend ==>
        outcome == Refused(CheckSend(old(draft), old(media)))
      ensures CheckSend(old(draft), old(media)) == ReadyToSend ==>
        outcome == (match reply
                    case SendUnauthorized => SessionExpired
                    case SendFailed => NotDelivered
                    case Sent(_) => Delivered)
      ensures scroll <==> outcome == Delivered
      ensures outcome == Delivered ==>
        messages == old(messages) + [reply.message] && draft == "" && media == None
      ensures outcome != Delivered ==>
        messages == old(messages) && draft == old(draft) && media == old(media)
    {
      scroll := false;
      var check := CheckSend(draft, media);
      if check != ReadyToSend {
        outcome := Refused(check);
        return;
      }
      match reply
      case SendUnauthorized =>
        outcome := SessionExpired;
      case SendFailed =>
        outcome := NotDelivered;
      case Sent(m) =>
        messages := messages + [m];
        scroll := true;
        draft := "";
        media := None;
        outcome := Delivered;
    }

    /**
     * `handleTypingStatusOnChange`: the draft takes the new value, TYPING is
     * emitted on the false-to-true change only, the pending timer is cleared
     * and one fresh timer installed.
     */
    method HandleTypingChange(value: string)
      requires Valid()
      modifies this`draft, this`isTyping, this`timerRef, this`liveTimers, this`nextTimer, this`outbox
      ensures Valid()
      ensures draft == value
      ensures LocalTyping() == OnKeystroke(old(LocalTyping()), chatId).typing
      ensures outbox == old(outbox) + OnKeystroke(old(LocalTyping()), chatId).out
    {
      draft := value;
      if !isTyping {
        isTyping := true;
        outbox := outbox + [EmitTyping(chatId)];
      }
      if timerRef.Some? {
        liveTimers := liveTimers - {timerRef.value};
      }
      var h := nextTimer;
      nextTimer := nextTimer + 1;
      liveTimers := liveTimers + {h};
      timerRef := Some(h);
    }

    /** Timer `h` fires: a pending one stops the typing state and emits STOP_TYPING. */
    method TypingTimerFired(h: TimerId)
      requires Valid()
      modifies this`isTyping, this`liveTimers, this`outbox
      ensures Valid()
      ensures LocalTyping() == OnTimerFired(old(LocalTyping()), chatId, h).typing
      ensures outbox == old(outbox) + OnTimerFired(old(LocalTyping()), chatId, h).out
    {
      if h in liveTimers {
        liveTimers := liveTimers - {h};
        isTyping := false;
        outbox := outbox + [EmitStopTyping(chatId)];
      }
    }

    /** The inbound TYPING and STOP_TYPING handlers. */
    method HandleRemotePresence(ev: RemotePresence)
      modifies this`otherTyping
      ensures otherTyping == OtherTypingAfter(old(otherTyping), ev, chatId)
    {
      match ev
      case RemoteTyping(c) =>
        if c == chatId {
          otherTyping := true;
        }
      case RemoteStopTyping(c) =>
        if c == chatId {
          otherTyping := false;
        }
    }

    /** The UPDATE_SEEN handler. */
    method HandleSeenUpdate(ev: SeenUpdate)
      modifies this`messages
      ensures messages == ApplySeenUpdate(old(messages), ev, chatId, viewer)
    {
      if ev.chatId == chatId && ev.userId != viewer {
        messages := MarkAllSeen(messages, EntryOf(ev), viewer);
      }
    }

    /** The effect run after `messages` changed: emit SEEN when SeenToEmit says so. */
    method SeenEffect(container: Option<Metrics>)
      modifies this`outbox
      ensures outbox == old(outbox) +
        (match SeenToEmit(messages, chatId, viewer, IsUserAtBottom(container))
         case Some(e) => [e]
         case None => [])
    {
      if |messages| == 0 {
        return;
      }
      var lastMessage := messages[|messages| - 1];
      if lastMessage.senderId == viewer {
        return;
      }
      var alreadySeen := HasSeen(lastMessage.seenBy, viewer);
      if !alreadySeen && IsUserAtBottom(container) {
        outbox := outbox + [EmitSeen(chatId, viewer)];
      }
    }
  }

  /**
   * The end-to-end trace after mounting. The history effect emits JOIN and
   * its fetch answers with one message from someone else; loading ends, so in
   * the next render the history effect runs again (a second JOIN and a second
   * fetch) and then the seen effect runs. The second fetch answers with
   * `again`, the seen effect runs once more, then a push of `second` arrives
   * and the seen effect runs after it is rendered. The container is measured
   * each time the code reads it. The list becomes `again` then `second`; the
   * two JOINs come first, then one SEEN for each rendered last message not
   * yet seen by the viewer while the viewer was at the bottom.
   */
  method LoadThenPush(viewer: UserId, chatId: ChatId, first: Message, again: Message, second: Message,
                      loadView: Metrics, reloadView: Metrics, pushView: Metrics, renderView: Metrics)
    returns (area: ChatArea, scrolled: bool)
    requires chatId != "" && first.senderId != viewer && again.senderId != viewer && second.senderId != viewer
    requires second.chatId == chatId
    ensures area.messages == [again, second]
    ensures scrolled <==> IsUserAtBottom(Some(pushView))
    ensures area.outbox ==
      [EmitJoin(chatId), EmitJoin(chatId)]
      + (if !HasSeen(first.seenBy, viewer) && IsUserAtBottom(Some(loadView)) then [EmitSeen(chatId, viewer)] else [])
      + (if !HasSeen(again.seenBy, viewer) && IsUserAtBottom(Some(reloadView)) then [EmitSeen(chatId, viewer)] else [])
      + (if !HasSeen(second.seenBy, viewer) && IsUserAtBottom(Some(renderView)) then [EmitSeen(chatId, viewer)] else [])
  {
    area := new ChatArea(viewer, chatId);
    var mountScroll := area.BeginHistoryLoad();
    assert !mountScroll;
    var expired := area.HistoryAnswered(HistoryLoaded([first]));
    var rerunScroll := area.BeginHistoryLoad();
    assert rerunScroll;
    assert area.messages == [first] && area.outbox == [EmitJoin(chatId), EmitJoin(chatId)];
    ghost var joined := area.outbox;
    area.SeenEffect(Some(loadView));
    ghost var seenFirst := area.outbox[|joined|..];
    assert area.outbox == joined + seenFirst;
    expired := area.HistoryAnswered(HistoryLoaded([again]));
    ghost var loaded := area.outbox;
    area.SeenEffect(Some(reloadView));
    ghost var seenAgain := area.outbox[|loaded|..];
    assert area.outbox == joined + seenFirst + seenAgain;
    scrolled := area.ReceiveNewMessage(second, Some(pushView));
    assert area.messages == [again, second];
    ghost var pushed := area.outbox;
    area.SeenEffect(Some(renderView));
    assert area.outbox == joined + seenFirst + seenAgain + area.outbox[|pushed|..];
  }

  /**
   * A push that arrives after JOIN but before the history fetch answers is
   * appended, then overwritten: the loaded history replaces the whole list.
   */
  method PushDuringFetch(viewer: UserId, chatId: ChatId, early: Message, history: seq<Message>)
    returns (area: ChatArea)
    requires chatId != "" && AcceptsIncoming(early, chatId, viewer)
    ensures area.outbox == [EmitJoin(chatId)]
    ensures area.messages == history
  {
    area := new ChatArea(viewer, chatId);
    var mountScroll := area.BeginHistoryLoad();
    var scroll := area.ReceiveNewMessage(early, None);
    assert area.messages == [early];
    var expired := area.HistoryAnswered(HistoryLoaded(history));
  }
}
