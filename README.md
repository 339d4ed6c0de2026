# CryspyTalk client: chat synchronisation and form rules in Dafny

This project models the client-side logic of the CryspyTalk chat web client
(a React + Redux application) and proves properties of that model. The
central part is the chat screen `ChatArea`:

- it loads a conversation's history and joins the chat's socket room;
- it appends pushed messages for the open chat;
- it validates and appends the viewer's own sends;
- it runs the typing debounce (TYPING / STOP_TYPING) and shows the peer's typing flag;
- it merges "seen" updates into every message's `seenBy`;
- it decides when to emit SEEN and when to scroll;
- it renders avatars and the seen strip.

Around it the project models:

- the sign-up and log-in validators and submit gates;
- the friend-request list;
- the user search page (debounce, blank-query guard, result marks and buttons);
- the theme and authentication stores;
- the home layout's sidebar and section rules.

Modules:

- `Wrappers`: `Option`.
- `Text`: JavaScript's white-space class, `trim`, the blank test, and the email test `/\S+@\S+\.\S+/.test(s)`. The email test is a left-to-right search, proved equal to "the pattern matches somewhere".
- `Conversation`: the pure rules of the chat screen as datatypes and functions.
- `ChatAreaComponent`: the class `ChatArea`, whose event handlers update its fields in place and append to a log of the socket events emitted. Each handler's `ensures` ties the new state to the functions of `Conversation` where one exists, and states it directly otherwise.
- `Validation`, `Signup`, `Login`: the field messages, the email rule, and the two forms. `validate` is a method filling the error map step by step, proved against a field-by-field description.
- `FriendRequests`: the filter by id, the fetch outcomes and the rendered screen.
- `UserSearch`: the pure result rules, and the class `SearchPage` with the query, the results, the searching flag and the pending debounce timer.
- `ThemeSlice`, `AuthSlice`: the two reducers, as classes whose methods assign the store's fields.
- `ChatLayout`: `renderContent`, and the class `Layout` with the sidebar and active-section handlers.

Inputs the code reads from the outside are parameters of the methods:

- socket events, fetch results and the container's scroll metrics;
- the window width;
- the stored cookies.

Effects the code performs are results:

- emitted socket events are appended to `outbox`;
- a scheduled scroll, a toast warning and an expired session are returned flags.

In four places the code guarantees less than a chat log, or a form, is normally meant to. The model follows the code:

- A pushed message is appended without any check against the ids already in the list. Delivering the same push twice stores it twice (`Conversation.ReceiveTwiceKeepsBothCopies`). A de-duplicating log was intended.
- A seen-update is merged into every message of the list, not only into the most recent one.
- A seen-update about the viewer is ignored. Because of that the viewer never enters `seenBy` locally, so the SEEN decision survives any seen-update (`Conversation.SeenUpdateKeepsSeenDecision`). SEEN can therefore be emitted again for the same last message on the next change to the list.
- The log-in form shows the loader even when validation fails and no request is sent.

## Model

| member | source | states |
|---|---|---|
| Text.Trim | src/pages/signup/index.js:32 | `s.trim()` is a slice `s[i..j]` of `s` with only white space before `i` and after `j`, and begins and ends with a non-space character unless it is empty |
| Text.TrimEmptyIffBlank | src/pages/signup/index.js:32 | the blank test holds exactly when trimming leaves the empty string (so `!s.trim()`) |
| Text.BlankIffAllSpace | src/components/chats/ChatArea.js:161 | a string is blank exactly when every character is JavaScript white space |
| Text.EmailFormatOkIffPattern | src/pages/signup/index.js:35 | the left-to-right search succeeds exactly when `\S+@\S+\.\S+` matches somewhere in the string (unanchored `test`) |
| Text.DotRunFromWitness | src/pages/signup/index.js:35 | the scan after an `@` succeeds exactly when a `.` two or more places on, followed by a non-space character, is reached over non-space characters only |
| Text.MatchFromWitness | src/pages/signup/index.js:35 | the outer scan succeeds exactly when some `@` at or after the start position begins a match |
| Validation.EmailErrorCases | src/pages/signup/index.js:33-37 | the email message is "required" exactly for a blank value, "invalid format" exactly for a non-blank value the pattern does not match, and absent otherwise |
| Signup.WithField | src/pages/signup/index.js:26 | `{ ...formData, [name]: value }` changes the named field and no other |
| Signup.HandleChange | src/pages/signup/index.js:25-28 | the named field takes the value; that field's error becomes the empty message; every other field and error is unchanged |
| Signup.Validate | src/pages/signup/index.js:30-43 | the error map is exactly the field-by-field description: first name when blank, email by the email rule, password "at least 6" when shorter than six (overwriting "required"), confirmation when different, never last name or gender |
| Signup.SignupErrorsUnique | src/pages/signup/index.js:30-43 | the description determines the error map: two maps meeting it are equal |
| Signup.NoErrorsIffAcceptable | src/pages/signup/index.js:46-47 | the error map is empty exactly when first name, email, password length and confirmation all pass |
| Signup.EmptyPasswordReportsLength | src/pages/signup/index.js:38-39 | an empty password is reported with the length message, never with "required" |
| Signup.HandleSubmit | src/pages/signup/index.js:44-53 | the form is posted (with the loader shown) exactly when it is acceptable; otherwise the non-empty errors are stored and nothing is sent |
| Login.HandleChange | src/pages/login/index.js:25-28 | the named field takes the value; only that field's error is reset to the empty message |
| Login.Validate | src/pages/login/index.js:30-39 | the error map holds the email rule's message and "Password is required" exactly for an empty password, nothing else |
| Login.AnyPasswordAccepted | src/pages/login/index.js:37 | any non-empty password passes: there is no length rule at log-in |
| Login.NoErrorsIffAcceptable | src/pages/login/index.js:42-43 | no errors exactly when the email passes its rule and the password is non-empty |
| Login.HandleSubmit | src/pages/login/index.js:40-50 | the form is posted exactly when it is acceptable; the loader is shown in both branches |
| Conversation.BottomTestRules | src/components/chats/ChatArea.js:43-47 | no container is never at the bottom; scrolled fully down (scrollTop + clientHeight == scrollHeight) counts; the 50 px slack is inclusive: 50 px hidden below counts and 51 px does not; scrolling further down over the same content never leaves the bottom |
| Conversation.ReceiveMessage | src/components/chats/ChatArea.js:84-93 | an inbound message for the open chat from someone else is appended after the old list, which stays a prefix; any other leaves the list unchanged |
| Conversation.ReceiveTwiceKeepsBothCopies | src/components/chats/ChatArea.js:88 | the same accepted push delivered twice is stored twice (no de-duplication by id) |
| Conversation.CheckSend | src/components/chats/ChatArea.js:161-169 | a send is refused exactly when the trimmed text is empty and there is no media, or the media is not a File, or it exceeds 10·1024·1024 bytes; each refusal reason is stated as an if-and-only-if |
| Conversation.MediaLimitIsInclusive | src/components/chats/ChatArea.js:166 | a file of exactly 10 MiB is accepted and one byte more is refused |
| Conversation.OnKeystroke | src/components/chats/ChatArea.js:218-230 | a keystroke emits TYPING only on the false-to-true change, leaves `isTyping` true, cancels the pending timer and installs exactly one fresh timer |
| Conversation.OnTimerFired | src/components/chats/ChatArea.js:226-229 | a pending timer firing clears `isTyping` and emits STOP_TYPING once; a cancelled timer does nothing |
| Conversation.Keystrokes | src/components/chats/ChatArea.js:218-230 | a run of keystrokes keeps at most one pending timer, the one in the slot |
| Conversation.BurstLeavesOneTimer | src/components/chats/ChatArea.js:218-230 | after n keystrokes only the last timer installed is pending, and TYPING was emitted at most once (exactly once from not typing) |
| Conversation.StepAlternates | src/components/chats/ChatArea.js:218-230 | one keystroke or timer firing emits at most one presence event, TYPING only when the viewer was not typing and STOP_TYPING only when they were, and flips the typing flag exactly when it emits |
| Conversation.TypingAlternates | src/components/chats/ChatArea.js:218-230 | over any sequence of keystrokes and timer firings, TYPING and STOP_TYPING strictly alternate, the first being TYPING from not typing; the viewer ends typing exactly when the starting flag was flipped an odd number of times |
| Conversation.BurstThenSilence | src/components/chats/ChatArea.js:218-230 | a burst followed by silence emits exactly TYPING then STOP_TYPING and leaves nothing pending; any earlier handle firing does nothing |
| Conversation.OtherTypingAfter | src/components/chats/ChatArea.js:232-242 | remote TYPING sets and STOP_TYPING clears the peer's flag only for the open chat; other chats leave it unchanged |
| Conversation.HasSeenAppend | src/components/chats/ChatArea.js:273 | after appending an entry, a user has seen the message exactly when they had seen it already or the entry is theirs |
| Conversation.SeenToEmit | src/components/chats/ChatArea.js:252-263 | SEEN for the open chat and the viewer is emitted exactly when the last message is from someone else, is not marked as seen by the viewer, and the viewer is at the bottom |
| Conversation.SeenFollowsIncoming | src/components/chats/ChatArea.js:252-263 | once an accepted push is the last message, the seen effect run while the viewer is at the bottom emits exactly one SEEN when the viewer is not in its `seenBy`, and nothing when the viewer is |
| Conversation.NoSeenAfterOwnMessage | src/components/chats/ChatArea.js:255 | no SEEN is emitted when the last message is the viewer's own |
| Conversation.MarkSeen | src/components/chats/ChatArea.js:273-279 | a message gains the entry, at the end of `seenBy`, exactly when that user is not yet in it and is not the viewer; no other field changes |
| Conversation.MarkAllSeen | src/components/chats/ChatArea.js:272-280 | the `map` keeps the length and applies the per-message rule at every position in order |
| Conversation.ApplySeenUpdate | src/components/chats/ChatArea.js:266-289 | an update for another chat or for the viewer changes nothing; otherwise every message ends up seen by that user, its `seenBy` grows by that one entry only when it was absent, and every other field is kept |
| Conversation.SeenUpdateKeepsUsersDistinct | src/components/chats/ChatArea.js:273-276 | merging an update never lists a participant twice in any `seenBy` |
| Conversation.SeenUpdateIdempotent | src/components/chats/ChatArea.js:266-289 | applying the same seen-update twice equals applying it once |
| Conversation.SeenUpdateKeepsSeenDecision | src/components/chats/ChatArea.js:266-289 | a seen-update never changes whether SEEN is emitted, because the viewer's own update is ignored |
| Conversation.RenderMessages | src/components/chats/ChatArea.js:105-157 | one row per message, row i built from message i and its predecessor |
| Conversation.RenderRules | src/components/chats/ChatArea.js:107-125 | the avatar shows on someone else's message exactly when the previous message has a different sender (always on the first); only the last message can carry the seen strip, and it does exactly when it has been seen |
| Conversation.SeenStripShape | src/components/chats/ChatArea.js:127-148 | the strip shows the first at most three entries, and "+n" counts exactly the rest |
| Conversation.AppendKeepsEarlierRows | src/components/chats/ChatArea.js:105-110 | appending a message leaves every earlier row unchanged except that the old last row loses its strip |
| ChatAreaComponent.ChatArea.constructor | src/components/chats/ChatArea.js:18-28 | mounts with no messages, loading, an empty draft, no media, not typing, no timer and nothing emitted |
| ChatAreaComponent.ChatArea.BeginHistoryLoad | src/components/chats/ChatArea.js:51-58 | a run of the history effect scrolls exactly when loading has ended and emits JOIN exactly when there is a chat id |
| ChatAreaComponent.ChatArea.HistoryAnswered | src/components/chats/ChatArea.js:59-80 | a loaded history replaces the list; a 401 reports an expired session and keeps it; any other failure keeps it too; loading ends in every case |
| ChatAreaComponent.ChatArea.ReceiveNewMessage | src/components/chats/ChatArea.js:84-93 | the list becomes `ReceiveMessage` of the old list; a scroll is scheduled exactly for an accepted message while at the bottom |
| ChatAreaComponent.ChatArea.ChooseMedia | src/components/chats/ChatArea.js:376-383 | more than one file warns and keeps the media; otherwise the first file, or none, is taken |
| ChatAreaComponent.ChatArea.SendMessage | src/components/chats/ChatArea.js:159-210 | a refused send changes nothing; otherwise a 401 expires the session, a failure keeps the state, and a delivered message is appended, clears draft and media and scrolls |
| ChatAreaComponent.ChatArea.HandleTypingChange | src/components/chats/ChatArea.js:218-230 | the draft takes the value, and the typing fields and emitted events are those of `OnKeystroke`; one timer at most stays pending |
| ChatAreaComponent.ChatArea.TypingTimerFired | src/components/chats/ChatArea.js:226-229 | the typing fields and emitted events are those of `OnTimerFired` |
| ChatAreaComponent.ChatArea.HandleRemotePresence | src/components/chats/ChatArea.js:232-242 | the peer's typing flag becomes `OtherTypingAfter` of the old one |
| ChatAreaComponent.ChatArea.HandleSeenUpdate | src/components/chats/ChatArea.js:266-289 | the list becomes `ApplySeenUpdate` of the old list |
| ChatAreaComponent.ChatArea.SeenEffect | src/components/chats/ChatArea.js:252-263 | the event `SeenToEmit` gives, if any, is appended to the emitted events |
| ChatAreaComponent.LoadThenPush | src/components/chats/ChatArea.js:51-263 | mount, history answer, the history effect's re-run when loading ends, a second answer and a push: the list is the second answer's message then the push; the mount and the re-run emit two JOINs; after them each of the three seen-effect runs emits one SEEN exactly when its last message is not seen by the viewer and the viewer is at the bottom when that run measures the container; the push scrolls exactly when the viewer is at the bottom when it arrives |
| ChatAreaComponent.PushDuringFetch | src/components/chats/ChatArea.js:56-92 | a push accepted after JOIN but before the history answer is lost when the loaded history replaces the list |
| FriendRequests.WithoutId | src/components/chats/FriendReuqests.js:70 | the filter removes every request with the id and keeps every other request with the same number of copies (as multisets), in their original order, and changes nothing when the id is absent |
| FriendRequests.WithoutIdIdempotent | src/components/chats/FriendReuqests.js:94 | removing the same id again changes nothing |
| FriendRequests.WithoutIdConcat | src/components/chats/FriendReuqests.js:94 | the filter of a concatenation is the concatenation of the filters |
| FriendRequests.AfterDecision | src/components/chats/FriendReuqests.js:69-72 | after an accept or reject no request with that id is left, every other request stays with its number of copies, and the rest keep their order |
| FriendRequests.DecisionIgnoresReply | src/components/chats/FriendReuqests.js:93-96 | success, failure and a thrown error leave the same list (the removal runs in `finally`) |
| FriendRequests.AfterFetch | src/components/chats/FriendReuqests.js:18-46 | an unsuccessful answer empties the list; a successful one takes `data` or empty; a thrown error keeps the list and sets the error text; loading ends in every case |
| FriendRequests.ScreenOf | src/components/chats/FriendReuqests.js:112-114 | spinner exactly while loading, then the error exactly when there is one, then the notice exactly for an empty list, else the cards |
| FriendRequests.FirstFetchShows | src/components/chats/FriendReuqests.js:32-40 | after the first fetch, a thrown error shows the error text, an unsuccessful or empty answer the notice, a non-empty one the cards |
| FriendRequests.ErrorStaysShown | src/components/chats/FriendReuqests.js:113 | once an error is shown, neither a later removal nor a later answer hides it |
| UserSearch.MarkRequestSent | src/pages/home/Search.js:74 | the `map` keeps length and order and sets `requestSent` on exactly the users with the id |
| UserSearch.ButtonFor | src/pages/home/Search.js:116-124 | "Already Friends" exactly for a friend, else "Request Sent" exactly when requested, else "Send Request" |
| UserSearch.MarkingDisablesOnlyThatUser | src/pages/home/Search.js:74 | after marking, the user can no longer be sent a request, and every other card's button is unchanged |
| UserSearch.MarkRequestSentIdempotent | src/pages/home/Search.js:74 | marking twice equals marking once |
| UserSearch.NoUsersNotice | src/pages/home/Search.js:92 | "No users found" shows exactly when not searching, the query has a non-space character, and there are no results |
| UserSearch.SearchPage.constructor | src/pages/home/Search.js:13-15 | empty query, no results, not searching, and the first debounce timer pending for the empty query |
| UserSearch.SearchPage.ChangeQuery | src/pages/home/Search.js:88 | the query takes the value, and the one pending timer is the new query's |
| UserSearch.SearchPage.DebounceFired | src/pages/home/Search.js:54-60 | the timer fires once; a search starts exactly when the captured query is not blank, and then with that exact query |
| UserSearch.SearchPage.FetchUsers | src/pages/home/Search.js:30-32 | a blank term returns at once and changes nothing; any other starts the search |
| UserSearch.SearchPage.SearchAnswered | src/pages/home/Search.js:30-52 | a successful answer replaces the results; a 401, a failure or a thrown error keeps them; searching ends in every case |
| UserSearch.SearchPage.SendRequestAnswered | src/pages/home/Search.js:62-78 | only a successful answer marks the user as requested |
| ThemeSlice.Toggled | src/features/theme/themeSlice.js:12 | 'light' becomes 'dark' and any other mode 'light'; the result is always one of the two |
| ThemeSlice.ToggleTwiceRestores | src/features/theme/themeSlice.js:12 | toggling twice from 'light' or 'dark' restores it |
| ThemeSlice.ToggleTwiceFromOtherMode | src/features/theme/themeSlice.js:12 | toggling twice from any other mode ends at 'dark' |
| ThemeSlice.ThemeStore.constructor | src/features/theme/themeSlice.js:3-5 | the initial mode is 'light' |
| ThemeSlice.ThemeStore.ToggleTheme | src/features/theme/themeSlice.js:11-14 | the mode becomes `Toggled` of the old one |
| ThemeSlice.ThemeStore.SetTheme | src/features/theme/themeSlice.js:15-17 | the mode becomes exactly the payload |
| AuthSlice.TokenFromCookie | src/features/auth/authSlice.js:6 | a missing or empty token cookie is no token; any other is kept |
| AuthSlice.AuthStore.constructor | src/features/auth/authSlice.js:4-8 | the stored user, the token as `TokenFromCookie` reads it, not loading |
| AuthSlice.AuthStore.SetUser | src/features/auth/authSlice.js:14-19 | user and token become the payload's; loading is unchanged |
| AuthSlice.AuthStore.Logout | src/features/auth/authSlice.js:20-25 | user and token become null whatever they were; loading is unchanged |
| AuthSlice.LogoutTwice | src/features/auth/authSlice.js:20-22 | a second logout leaves the state exactly as the first left it |
| ChatLayout.RenderContent | src/pages/home/ChatLayout.js:24-39 | the chat list is rendered exactly for a section that is not one of the five known ones |
| ChatLayout.PlaceholdersDistinct | src/pages/home/ChatLayout.js:26-35 | two different known sections render different placeholders |
| ChatLayout.SidebarNeverShowsChatList | src/components/sidebar/index.js:29-63 | no section the sidebar can select renders the chat list |
| ChatLayout.Layout.constructor | src/pages/home/ChatLayout.js:8-9 | the active section is 'all'; the sidebar is shown exactly when the width is at least 950 |
| ChatLayout.Layout.HandleResize | src/pages/home/ChatLayout.js:11-17 | the sidebar is hidden exactly when the width is below 950 |
| ChatLayout.Layout.ToggleSidebar | src/pages/home/ChatLayout.js:45 | the header's toggle flips the sidebar |
| ChatLayout.Layout.Select | src/pages/home/ChatLayout.js:64-67 | the section becomes active, and the sidebar hides only on a narrow window |

## Left out

- Network and sockets: every `fetch`, JSON parsing and the socket.io connection are outside the model. Replies and inbound events are method arguments, and emitted events go to a log.
- Toasts, `scrollIntoView`, `requestAnimationFrame`, focus handling and clearing the file input are browser effects. A scroll, a warning and a shown loader (`showLoader`) are returned as flags. The loader's own store, with its hide action, and the toast texts are not modelled.
- Cookies: the stored user and token are constructor arguments of `AuthSlice.AuthStore`. `Cookies.set` and `Cookies.remove` are not modelled, nor is JSON parsing of the stored user.
- `document.documentElement.setAttribute` in the theme reducers is not modelled.
- ChatArea's `chatUser` (the peer's profile from the history fetch), the "seen by" modal, the input-focus scroll effect and all styling are left out because they are display only.
- Real timer delays (1500 ms, 500 ms, 100 ms) are not modelled. A timer is a handle; it either fires or is cancelled.
- React scheduling is not modelled: each handler runs to completion on the state it sees, and the state updates one handler makes are rendered together (as React batches them), so `setMessages` and `setLoading(false)` after a history answer reach the screen in one render. Three things follow.
  - A handler never runs in the middle of another. The history effect is split into its start (JOIN) and its answer, so a push can arrive between the two (`ChatAreaComponent.PushDuringFetch`), but not in the middle of either.
  - The component does not schedule effects itself. Which effects run after which render is written out in `ChatAreaComponent.LoadThenPush`, including the history effect's re-run when `loading` changes.
  - Concurrent accepts in the friend-request list, which share a stale `requests` value, are not modelled.
- String lengths are counted in characters, not UTF-16 code units. Scroll metrics are whole numbers.
- The fetch reply of the search page carries its results directly, so an answer whose `data` is missing is not modelled.
- Fields used only for display are carried but never read: a message's content and media URL, a seen entry's name and picture, a friend request's sender and date.
- Validation.MessageText: the field messages' exact texts are given as a plain function without a contract, since nothing here depends on them beyond being displayed.
- Settings, AllChats, the sidebar, the header, routing and the Redux store wiring are not part of this model, because they are rendering or plumbing only.
