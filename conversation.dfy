/**
 * The conversation-sync rules of the chat screen (src/components/chats/ChatArea.js),
 * as values and functions: which inbound message is appended, how a send is
 * validated, the typing debounce on the local axis and the remote typing flag,
 * how a seen-update is merged into `seenBy`, when a "seen" is emitted, the
 * at-bottom test and the per-message render rules. The component that holds
 * this state and applies these rules event by event is ChatAreaComponent.ChatArea.
 */
module Conversation {
  import opened Wrappers
  import opened Text

  type UserId = string
  type ChatId = string
  type TimerId = nat

  /** One `seenBy` entry: the participant and the fields shown for them. */
  datatype SeenEntry = SeenEntry(userId: UserId, firstName: string, profilePic: string)

  /** A message as the server sends it (`senderId._id` is kept as `senderId`). */
  datatype Message = Message(
    id: string,
    chatId: ChatId,
    senderId: UserId,
    content: string,
    mediaUrl: Option<string>,
    seenBy: seq<SeenEntry>)

  /** The socket events this screen emits. */
  datatype Outbound =
    | EmitJoin(chatId: ChatId)
    | EmitTyping(chatId: ChatId)
    | EmitStopTyping(chatId: ChatId)
    | EmitSeen(chatId: ChatId, userId: UserId)

  function Last(msgs: seq<Message>): Message
    requires |msgs| > 0
  {
    msgs[|msgs| - 1]
  }

  // ---------------------------------------------------------------------------
  // Scroll anchor

  /** The scroll metrics of the messages container, in whole pixels. */
  datatype Metrics = Metrics(scrollHeight: int, scrollTop: int, clientHeight: int)

  /** The slack, in pixels, within which the viewer still counts as at the bottom. */
  const BottomSlack: int := 50

  /** `isUserAtBottom`: false without a container. */
  predicate IsUserAtBottom(container: Option<Metrics>)
  {
    match container
    case None => false
    case Some(m) => m.scrollHeight - m.scrollTop <= m.clientHeight + BottomSlack
  }

  /**
   * The at-bottom test's rules: no container is never at the bottom; scrolled
   * fully down counts; the slack is inclusive, so 50 pixels hidden below still
   * count and 51 do not; and scrolling further down over the same content
   * never leaves the bottom.
   */
  lemma BottomTestRules(m: Metrics, lower: int)
    ensures !IsUserAtBottom(None)
    ensures m.scrollTop + m.clientHeight == m.scrollHeight ==> IsUserAtBottom(Some(m))
    ensures IsUserAtBottom(Some(m.(scrollTop := m.scrollHeight - m.clientHeight - BottomSlack)))
    ensures !IsUserAtBottom(Some(m.(scrollTop := m.scrollHeight - m.clientHeight - BottomSlack - 1)))
    ensures IsUserAtBottom(Some(m)) && lower >= m.scrollTop ==> IsUserAtBottom(Some(m.(scrollTop := lower)))
  {
  }

  // ---------------------------------------------------------------------------
  // Inbound NEW_MESSAGE

  /** The NEW_MESSAGE handler's guard: the open chat, and not the viewer's own message. */
  predicate AcceptsIncoming(m: Message, open: ChatId, viewer: UserId)
  {
    m.chatId == open && m.senderId != viewer
  }

  /**
   * The message list after an inbound message: the old list is a prefix and
   * the message is appended after it, or nothing changes. There is no
   * de-duplication by id and no re-sorting.
   */
  function ReceiveMessage(msgs: seq<Message>, m: Message, open: ChatId, viewer: UserId): (r: seq<Message>)
    ensures AcceptsIncoming(m, open, viewer) ==> |r| == |msgs| + 1 && r[..|msgs|] == msgs && r[|msgs|] == m
    ensures !AcceptsIncoming(m, open, viewer) ==> r == msgs
  {
    if AcceptsIncoming(m, open, viewer) then msgs + [m] else msgs
  }

  /** Delivering the same accepted push twice stores it twice: the handler keeps duplicates. */
  lemma ReceiveTwiceKeepsBothCopies(msgs: seq<Message>, m: Message, open: ChatId, viewer: UserId)
    requires AcceptsIncoming(m, open, viewer)
    ensures var r := ReceiveMessage(ReceiveMessage(msgs, m, open, viewer), m, open, viewer);
      |r| == |msgs| + 2 && r[|msgs|] == r[|msgs| + 1] == m
  {
  }

  // ---------------------------------------------------------------------------
  // Local send: validation

  /** The attached media: whether it is a `File`, and its size in bytes. */
  datatype Media = Media(isFile: bool, size: int)

  /** `10 * 1024 * 1024`: the largest media size a send accepts. */
  const MaxMediaBytes: int := 10 * 1024 * 1024

  /** The outcome of `handleSendMessage`'s checks, in the order it makes them. */
  datatype SendCheck = NothingToSend | InvalidMediaFile | MediaTooLarge | ReadyToSend

  function CheckSend(draft: string, media: Option<Media>): (r: SendCheck)
    ensures r == NothingToSend <==> IsBlank(draft) && media.None?
    ensures r == InvalidMediaFile <==> media.Some? && !media.value.isFile
    ensures r == MediaTooLarge <==> media.Some? && media.value.isFile && media.value.size > MaxMediaBytes
    ensures r == ReadyToSend <==>
      (!IsBlank(draft) || media.Some?) && (media.Some? ==> media.value.isFile && media.value.size <= MaxMediaBytes)
  {
    if IsBlank(draft) && media.None? then NothingToSend
    else if media.Some? && !media.value.isFile then InvalidMediaFile
    else if media.Some? && media.value.size > MaxMediaBytes then MediaTooLarge
    else ReadyToSend
  }

  /** A file of exactly 10 MiB is accepted; one byte more is refused. */
  lemma MediaLimitIsInclusive(draft: string)
    ensures CheckSend(draft, Some(Media(true, MaxMediaBytes))) == ReadyToSend
    ensures CheckSend(draft, Some(Media(true, MaxMediaBytes + 1))) == MediaTooLarge
  {
  }

  // ---------------------------------------------------------------------------
  // Typing presence: the local axis

  /**
   * `isTyping`, the `typingTimeoutRef` slot (which keeps the last handle even
   * after that timer has fired), the set of timers still pending, and the
   * next fresh handle.
   */
  datatype TypingState = TypingState(isTyping: bool, timerRef: Option<TimerId>, live: set<TimerId>, nextTimer: TimerId)

  /**
   * At most one timer is pending, and it is the one the slot holds; the
   * viewer counts as typing exactly while a timer is pending.
   */
  predicate TypingValid(t: TypingState)
  {
    && (t.live == {} || (t.timerRef.Some? && t.live == {t.timerRef.value}))
    && (t.isTyping <==> t.live != {})
    && (t.timerRef.Some? ==> t.timerRef.value < t.nextTimer)
  }

  const NotTyping: TypingState := TypingState(false, None, {}, 0)

  /** A new typing state together with the events emitted on the way. */
  datatype TypingStep = TypingStep(typing: TypingState, out: seq<Outbound>)

  /**
   * `handleTypingStatusOnChange`: TYPING is emitted only on the false-to-true
   * change of `isTyping`; the pending timer, if any, is cancelled and exactly
   * one fresh timer is installed.
   */
  function OnKeystroke(t: TypingState, open: ChatId): (r: TypingStep)
    requires TypingValid(t)
    ensures TypingValid(r.typing)
    ensures r.typing.isTyping
    ensures r.out == if t.isTyping then [] else [EmitTyping(open)]
    ensures t.nextTimer !in t.live && r.typing.live == {t.nextTimer}
    ensures r.typing.timerRef == Some(t.nextTimer)
  {
    var out := if t.isTyping then [] else [EmitTyping(open)];
    var cleared := if t.timerRef.Some? then t.live - {t.timerRef.value} else t.live;
    var h := t.nextTimer;
    TypingStep(TypingState(true, Some(h), cleared + {h}, h + 1), out)
  }

  /**
   * Timer `h` fires. Only a pending timer can fire (a cleared one never
   * does); it sets `isTyping` to false and emits STOP_TYPING once.
   */
  function OnTimerFired(t: TypingState, open: ChatId, h: TimerId): (r: TypingStep)
    requires TypingValid(t)
    ensures TypingValid(r.typing)
    ensures h in t.live ==> !r.typing.isTyping && r.typing.live == {} && r.out == [EmitStopTyping(open)]
    ensures h in t.live ==> r.typing.timerRef == t.timerRef && r.typing.nextTimer == t.nextTimer
    ensures h !in t.live ==> r == TypingStep(t, [])
  {
    if h in t.live then TypingStep(t.(isTyping := false, live := t.live - {h}), [EmitStopTyping(open)])
    else TypingStep(t, [])
  }

  /** `n` keystrokes in a row, none of them far enough apart for the timer to fire. */
  function Keystrokes(t: TypingState, open: ChatId, n: nat): (r: TypingStep)
    requires TypingValid(t)
    ensures TypingValid(r.typing)
    decreases n
  {
    if n == 0 then TypingStep(t, [])
    else
      var first := OnKeystroke(t, open);
      var rest := Keystrokes(first.typing, open, n - 1);
      TypingStep(rest.typing, first.out + rest.out)
  }

  /**
   * The debounce collapses a burst: after `n >= 1` keystrokes only the last
   * timer installed is pending, TYPING was emitted at most once (exactly once
   * when the burst starts from not typing), and every earlier timer is dead.
   */
  lemma {:induction false} BurstLeavesOneTimer(t: TypingState, open: ChatId, n: nat)
    requires TypingValid(t) && n >= 1
    decreases n
    ensures var s := Keystrokes(t, open, n);
      && s.out == (if t.isTyping then [] else [EmitTyping(open)])
      && s.typing.isTyping
      && s.typing.timerRef == Some(t.nextTimer + n - 1)
      && s.typing.live == {t.nextTimer + n - 1}
  {
    var first := OnKeystroke(t, open);
    if n > 1 {
      BurstLeavesOneTimer(first.typing, open, n - 1);
    }
  }

  /**
   * A burst of keystrokes followed by silence yields exactly one TYPING and one
   * STOP_TYPING, and leaves no timer pending; firing any earlier handle does nothing.
   */
  lemma BurstThenSilence(t: TypingState, open: ChatId, n: nat, stale: TimerId)
    requires TypingValid(t) && !t.isTyping && n >= 1
    requires stale != t.nextTimer + n - 1
    ensures var s := Keystrokes(t, open, n);
      var done := OnTimerFired(s.typing, open, t.nextTimer + n - 1);
      && s.out + done.out == [EmitTyping(open), EmitStopTyping(open)]
      && !done.typing.isTyping && done.typing.live == {}
      && OnTimerFired(s.typing, open, stale) == TypingStep(s.typing, [])
  {
    BurstLeavesOneTimer(t, open, n);
  }

  /** What can happen on the local typing axis: a keystroke, or a timer firing. */
  datatype TypingEvent = Keystroke | TimerFires(handle: TimerId)

  /** One typing event, handled by the keystroke or the timer rule. */
  function StepTyping(t: TypingState, open: ChatId, e: TypingEvent): (r: TypingStep)
    requires TypingValid(t)
    ensures TypingValid(r.typing)
  {
    match e
    case Keystroke => OnKeystroke(t, open)
    case TimerFires(h) => OnTimerFired(t, open, h)
  }

  /** The typing state and the events emitted after a run of typing events. */
  function RunTyping(t: TypingState, open: ChatId, evs: seq<TypingEvent>): (r: TypingStep)
    requires TypingValid(t)
    ensures TypingValid(r.typing)
    decreases |evs|
  {
    if evs == [] then TypingStep(t, [])
    else
      var first := StepTyping(t, open, evs[0]);
      var rest := RunTyping(first.typing, open, evs[1..]);
      TypingStep(rest.typing, first.out + rest.out)
  }

  /**
   * `out` alternates TYPING and STOP_TYPING for `open`, starting with
   * STOP_TYPING when `typing` holds and with TYPING otherwise.
   */
  predicate Alternates(out: seq<Outbound>, open: ChatId, typing: bool)
    decreases |out|
  {
    out == [] ||
    (out[0] == (if typing then EmitStopTyping(open) else EmitTyping(open)) && Alternates(out[1..], open, !typing))
  }

  lemma {:induction false} AlternatesConcat(a: seq<Outbound>, c: seq<Outbound>, open: ChatId, typing: bool)
    requires Alternates(a, open, typing)
    requires Alternates(c, open, typing != (|a| % 2 == 1))
    ensures Alternates(a + c, open, typing)
    decreases |a|
  {
    if a == [] {
      assert a + c == c;
    } else {
      AlternatesConcat(a[1..], c, open, !typing);
      assert (a + c)[1..] == a[1..] + c;
    }
  }

  /**
   * One event emits at most one presence event, and only one that flips the
   * typing flag: TYPING when it was off, STOP_TYPING when it was on.
   */
  lemma StepAlternates(t: TypingState, open: ChatId, e: TypingEvent)
    requires TypingValid(t)
    ensures var r := StepTyping(t, open, e);
      && |r.out| <= 1
      && Alternates(r.out, open, t.isTyping)
      && (r.typing.isTyping <==> (t.isTyping != (|r.out| % 2 == 1)))
  {
    var r := StepTyping(t, open, e);
    assert |r.out| <= 1;
    assert r.out != [] ==> r.out[1..] == [];
  }

  /**
   * Whatever the keystrokes and timer firings, the emitted presence events
   * alternate: never two TYPINGs or two STOP_TYPINGs in a row, the first one
   * being TYPING when the viewer was not typing; and the viewer ends typing
   * exactly when an odd number of events flipped the flag.
   */
  lemma {:induction false} TypingAlternates(t: TypingState, open: ChatId, evs: seq<TypingEvent>)
    requires TypingValid(t)
    ensures var r := RunTyping(t, open, evs);
      Alternates(r.out, open, t.isTyping) && (r.typing.isTyping <==> (t.isTyping != (|r.out| % 2 == 1)))
    decreases |evs|
  {
    if evs != [] {
      var first := StepTyping(t, open, evs[0]);
      StepAlternates(t, open, evs[0]);
      TypingAlternates(first.typing, open, evs[1..]);
      var rest := RunTyping(first.typing, open, evs[1..]);
      AlternatesConcat(first.out, rest.out, open, t.isTyping);
      assert RunTyping(t, open, evs) == TypingStep(rest.typing, first.out + rest.out);
      OddSum(|first.out|, |rest.out|);
    }
  }

  /** The sum of two lengths is odd exactly when one of them is. */
  lemma OddSum(a: nat, c: nat)
    ensures (a + c) % 2 == 1 <==> ((a % 2 == 1) != (c % 2 == 1))
  {
  }

  // ---------------------------------------------------------------------------
  // Typing presence: the remote axis

  /** An inbound TYPING or STOP_TYPING event. */
  datatype RemotePresence = RemoteTyping(chatId: ChatId) | RemoteStopTyping(chatId: ChatId)

  /** `otherTyping` after a remote presence event: only events for the open chat count. */
  function OtherTypingAfter(otherTyping: bool, ev: RemotePresence, open: ChatId): (r: bool)
    ensures ev.chatId == open ==> (r <==> ev.RemoteTyping?)
    ensures ev.chatId != open ==> r == otherTyping
  {
    if ev.chatId == open then ev.RemoteTyping? else otherTyping
  }

  // ---------------------------------------------------------------------------
  // Read receipts

  /** `seenBy.some(u => u._id === user)`. */
  predicate HasSeen(entries: seq<SeenEntry>, user: UserId)
  {
    exists i | 0 <= i < |entries| :: entries[i].userId == user
  }

  /** No participant is listed twice. */
  predicate DistinctUsers(entries: seq<SeenEntry>)
  {
    forall i, j :: 0 <= i < j < |entries| ==> entries[i].userId != entries[j].userId
  }

  lemma HasSeenAppend(entries: seq<SeenEntry>, e: SeenEntry, user: UserId)
    ensures HasSeen(entries + [e], user) <==> HasSeen(entries, user) || e.userId == user
  {
    if HasSeen(entries + [e], user) {
      var i :| 0 <= i < |entries| + 1 && (entries + [e])[i].userId == user;
      if i < |entries| {
        assert entries[i].userId == user;
      }
    }
    if e.userId == user {
      assert (entries + [e])[|entries|] == e;
    }
    if HasSeen(entries, user) {
      var i :| 0 <= i < |entries| && entries[i].userId == user;
      assert (entries + [e])[i] == entries[i];
    }
  }

  /** The emission rule that runs after every change to `messages`. */
  function SeenToEmit(msgs: seq<Message>, open: ChatId, viewer: UserId, atBottom: bool): (r: Option<Outbound>)
    ensures r.Some? <==>
      |msgs| > 0 && Last(msgs).senderId != viewer && !HasSeen(Last(msgs).seenBy, viewer) && atBottom
    ensures r.Some? ==> r.value == EmitSeen(open, viewer)
  {
    if |msgs| == 0 then None
    else if Last(msgs).senderId == viewer then None
    else if !HasSeen(Last(msgs).seenBy, viewer) && atBottom then Some(EmitSeen(open, viewer))
    else None
  }

  /** A message from someone else, not yet seen by the viewer, arriving at the bottom asks for a SEEN. */
  lemma SeenFollowsIncoming(msgs: seq<Message>, m: Message, open: ChatId, viewer: UserId)
    requires AcceptsIncoming(m, open, viewer)
    ensures SeenToEmit(ReceiveMessage(msgs, m, open, viewer), open, viewer, true) ==
      if HasSeen(m.seenBy, viewer) then None else Some(EmitSeen(open, viewer))
  {
  }

  /** After the viewer's own message is appended no SEEN is emitted, wherever the viewer is. */
  lemma NoSeenAfterOwnMessage(msgs: seq<Message>, m: Message, open: ChatId, viewer: UserId, atBottom: bool)
    requires m.senderId == viewer
    ensures SeenToEmit(msgs + [m], open, viewer, atBottom) == None
  {
  }

  /** The entry a seen-update adds: `{ _id: userId, firstName, profilePic }`. */
  datatype SeenUpdate = SeenUpdate(chatId: ChatId, userId: UserId, firstName: string, profilePic: string)

  function EntryOf(ev: SeenUpdate): SeenEntry
  {
    SeenEntry(ev.userId, ev.firstName, ev.profilePic)
  }

  /** One message of the `prevMessages.map` in `handleSeenUpdate`. */
  function MarkSeen(msg: Message, e: SeenEntry, viewer: UserId): (r: Message)
    ensures r.(seenBy := msg.seenBy) == msg
    ensures HasSeen(msg.seenBy, e.userId) || e.userId == viewer ==> r == msg
    ensures !HasSeen(msg.seenBy, e.userId) && e.userId != viewer ==> r.seenBy == msg.seenBy + [e]
  {
    if !HasSeen(msg.seenBy, e.userId) && e.userId != viewer then msg.(seenBy := msg.seenBy + [e])
    else msg
  }

  /** The whole `map`: every message, in order, through MarkSeen. */
  function MarkAllSeen(msgs: seq<Message>, e: SeenEntry, viewer: UserId): (r: seq<Message>)
    ensures |r| == |msgs|
    ensures forall i :: 0 <= i < |msgs| ==> r[i] == MarkSeen(msgs[i], e, viewer)
  {
    if msgs == [] then []
    else [MarkSeen(msgs[0], e, viewer)] + MarkAllSeen(msgs[1..], e, viewer)
  }

  /** `handleSeenUpdate`: ignored for another chat or for the viewer's own id. */
  function ApplySeenUpdate(msgs: seq<Message>, ev: SeenUpdate, open: ChatId, viewer: UserId): (r: seq<Message>)
    ensures |r| == |msgs|
    ensures ev.chatId != open || ev.userId == viewer ==> r == msgs
    ensures ev.chatId == open && ev.userId != viewer ==>
      forall i :: 0 <= i < |msgs| ==>
        && r[i].(seenBy := msgs[i].seenBy) == msgs[i]
        && HasSeen(r[i].seenBy, ev.userId)
        && r[i].seenBy == (if HasSeen(msgs[i].seenBy, ev.userId) then msgs[i].seenBy else msgs[i].seenBy + [EntryOf(ev)])
  {
    if ev.chatId == open && ev.userId != viewer then
      var r := MarkAllSeen(msgs, EntryOf(ev), viewer);
      assert forall i :: 0 <= i < |msgs| ==> HasSeen(r[i].seenBy, ev.userId) by {
        forall i | 0 <= i < |msgs| ensures HasSeen(r[i].seenBy, ev.userId) {
          HasSeenAppend(msgs[i].seenBy, EntryOf(ev), ev.userId);
        }
      }
      r
    else msgs
  }

  /** Merging a seen-update never lists a participant twice in any `seenBy`. */
  lemma SeenUpdateKeepsUsersDistinct(msgs: seq<Message>, ev: SeenUpdate, open: ChatId, viewer: UserId)
    requires forall i :: 0 <= i < |msgs| ==> DistinctUsers(msgs[i].seenBy)
    ensures var r := ApplySeenUpdate(msgs, ev, open, viewer);
      forall i :: 0 <= i < |r| ==> DistinctUsers(r[i].seenBy)
  {
    var r := ApplySeenUpdate(msgs, ev, open, viewer);
    forall i | 0 <= i < |r| ensures DistinctUsers(r[i].seenBy) {
      var sb := msgs[i].seenBy;
      if r[i].seenBy != sb {
        assert r[i].seenBy == sb + [EntryOf(ev)] && !HasSeen(sb, ev.userId);
        assert forall j :: 0 <= j < |sb| ==> sb[j].userId != ev.userId;
      }
    }
  }

  /** Applying the same seen-update twice is the same as applying it once. */
  lemma SeenUpdateIdempotent(msgs: seq<Message>, ev: SeenUpdate, open: ChatId, viewer: UserId)
    ensures var once := ApplySeenUpdate(msgs, ev, open, viewer);
      ApplySeenUpdate(once, ev, open, viewer) == once
  {
    var once := ApplySeenUpdate(msgs, ev, open, viewer);
    var twice := ApplySeenUpdate(once, ev, open, viewer);
    if ev.chatId == open && ev.userId != viewer {
      forall i | 0 <= i < |once| ensures twice[i] == once[i] {
        assert HasSeen(once[i].seenBy, ev.userId);
      }
    }
  }

  /**
   * A seen-update never changes the SEEN decision: the viewer's own update is
   * ignored and anyone else's does not put the viewer into `seenBy`. So a SEEN
   * emitted for the last message is emitted again after the next seen-update.
   */
  lemma SeenUpdateKeepsSeenDecision(msgs: seq<Message>, ev: SeenUpdate, open: ChatId, viewer: UserId, atBottom: bool)
    ensures SeenToEmit(ApplySeenUpdate(msgs, ev, open, viewer), open, viewer, atBottom) ==
      SeenToEmit(msgs, open, viewer, atBottom)
  {
    var r := ApplySeenUpdate(msgs, ev, open, viewer);
    if |msgs| > 0 && ev.chatId == open && ev.userId != viewer {
      var k := |msgs| - 1;
      HasSeenAppend(msgs[k].seenBy, EntryOf(ev), viewer);
      assert Last(r).senderId == Last(msgs).senderId;
      assert HasSeen(Last(r).seenBy, viewer) <==> HasSeen(Last(msgs).seenBy, viewer);
    }
  }

  // ---------------------------------------------------------------------------
  // Render rules

  /** The seen strip: at most three entries, and how many more there are ("+n"). */
  datatype SeenStrip = SeenStrip(shown: seq<SeenEntry>, more: nat)

  /** One rendered row: right-aligned for the viewer, whether the avatar image shows, the strip. */
  datatype Row = Row(mine: bool, avatar: bool, strip: Option<SeenStrip>)

  const SeenStripMax: nat := 3

  function StripOf(seenBy: seq<SeenEntry>): SeenStrip
  {
    if |seenBy| > SeenStripMax then SeenStrip(seenBy[..SeenStripMax], |seenBy| - SeenStripMax)
    else SeenStrip(seenBy, 0)
  }

  /** Row `i` of `renderMessages`. */
  function RenderRow(msgs: seq<Message>, i: nat, viewer: UserId): Row
    requires i < |msgs|
  {
    var msg := msgs[i];
    var mine := msg.senderId == viewer;
    var showAvatar := i == 0 || msgs[i - 1].senderId != msg.senderId;
    var isLast := i == |msgs| - 1;
    Row(mine, !mine && showAvatar, if isLast && |msg.seenBy| > 0 then Some(StripOf(msg.seenBy)) else None)
  }

  function RenderMessages(msgs: seq<Message>, viewer: UserId): (rows: seq<Row>)
    ensures |rows| == |msgs|
    ensures forall i :: 0 <= i < |msgs| ==> rows[i] == RenderRow(msgs, i, viewer)
  {
    seq(|msgs|, i requires 0 <= i < |msgs| => RenderRow(msgs, i, viewer))
  }

  /**
   * The avatar shows on a message from someone else exactly when the previous
   * message has another sender; the strip shows only on the last message, and
   * there exactly when it has been seen by someone.
   */
  lemma RenderRules(msgs: seq<Message>, viewer: UserId)
    ensures var rows := RenderMessages(msgs, viewer);
      && (forall i :: 0 < i < |msgs| ==>
            (rows[i].avatar <==> msgs[i].senderId != viewer && msgs[i - 1].senderId != msgs[i].senderId))
      && (|msgs| > 0 ==> (rows[0].avatar <==> msgs[0].senderId != viewer))
      && (forall i :: 0 <= i < |msgs| - 1 ==> rows[i].strip.None?)
      && (|msgs| > 0 ==> (rows[|msgs| - 1].strip.Some? <==> |Last(msgs).seenBy| > 0))
  {
  }

  /** The strip lists the first (at most three) entries, and "+n" counts exactly the rest. */
  lemma SeenStripShape(seenBy: seq<SeenEntry>)
    ensures var s := StripOf(seenBy);
      && |s.shown| <= SeenStripMax
      && s.shown == seenBy[..|s.shown|]
      && |s.shown| + s.more == |seenBy|
      && (s.more > 0 <==> |seenBy| > SeenStripMax)
  {
  }

  /**
   * Appending a message leaves every earlier row unchanged except the old
   * last one, which loses its strip.
   */
  lemma {:induction false} AppendKeepsEarlierRows(msgs: seq<Message>, m: Message, viewer: UserId)
    requires |msgs| > 0
    ensures var before := RenderMessages(msgs, viewer);
      var after := RenderMessages(msgs + [m], viewer);
      && after[..|msgs| - 1] == before[..|msgs| - 1]
      && after[|msgs| - 1] == before[|msgs| - 1].(strip := None)
  {
    var before := RenderMessages(msgs, viewer);
    var after := RenderMessages(msgs + [m], viewer);
    var ext := msgs + [m];
    forall i | 0 <= i < |msgs| - 1 ensures after[i] == before[i] {
      assert ext[i] == msgs[i];
      assert i > 0 ==> ext[i - 1] == msgs[i - 1];
    }
    assert ext[|msgs| - 1] == msgs[|msgs| - 1];
    assert |msgs| > 1 ==> ext[|msgs| - 2] == msgs[|msgs| - 2];
  }
}
