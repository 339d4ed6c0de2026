/**
 * The pending friend-request list (src/components/chats/FriendReuqests.js):
 * what the list becomes after the fetch, and after accepting or rejecting
 * one request.
 */
module FriendRequests {
  import opened Wrappers

  /** One pending request, as listed (the `_id` of the request and what the card shows). */
  datatype FriendRequest = FriendRequest(id: string, senderEmail: Option<string>, createdAt: string)

  /** `a` is `b` with some elements left out, the rest in their original order. */
  predicate IsSubsequence<T(==)>(a: seq<T>, b: seq<T>)
    decreases |b|
  {
    a == [] || (b != [] && ((a[0] == b[0] && IsSubsequence(a[1..], b[1..])) || IsSubsequence(a, b[1..])))
  }

  /** `requests.filter(req => req._id !== id)`. */
  function WithoutId(reqs: seq<FriendRequest>, id: string): (r: seq<FriendRequest>)
    ensures forall i :: 0 <= i < |r| ==> r[i].id != id
    ensures IsSubsequence(r, reqs)
    ensures (forall i :: 0 <= i < |reqs| ==> reqs[i].id != id) ==> r == reqs
    ensures forall x :: multiset(r)[x] == if x.id == id then 0 else multiset(reqs)[x]
  {
    if reqs == [] then []
    else
      var rest := WithoutId(reqs[1..], id);
      assert reqs == [reqs[0]] + reqs[1..];
      if reqs[0].id == id then rest
      else
        assert ([reqs[0]] + rest)[1..] == rest;
        [reqs[0]] + rest
  }

  /** Removing the same id again changes nothing. */
  lemma WithoutIdIdempotent(reqs: seq<FriendRequest>, id: string)
    ensures WithoutId(WithoutId(reqs, id), id) == WithoutId(reqs, id)
  {
  }

  /** The filter works piece by piece: the order of what remains is the original order. */
  lemma {:induction false} WithoutIdConcat(a: seq<FriendRequest>, b: seq<FriendRequest>, id: string)
    ensures WithoutId(a + b, id) == WithoutId(a, id) + WithoutId(b, id)
  {
    if a != [] {
      assert (a + b)[0] == a[0];
      assert (a + b)[1..] == a[1..] + b;
      WithoutIdConcat(a[1..], b, id);
      if a[0].id != id {
        assert WithoutId(a + b, id) == [a[0]] + WithoutId(a[1..] + b, id);
        assert WithoutId(a, id) == [a[0]] + WithoutId(a[1..], id);
      }
    } else {
      assert a + b == b;
    }
  }

  /** The server's answer to an accept or reject: its `success` flag, or a thrown error. */
  datatype DecisionReply = Answered(success: bool) | DecisionThrew

  /**
   * `handleAccept` and `handleReject`: the removal runs in `finally`, so the
   * list loses the request whatever the server answered.
   */
  function AfterDecision(reqs: seq<FriendRequest>, id: string, reply: DecisionReply): (r: seq<FriendRequest>)
    ensures forall i :: 0 <= i < |r| ==> r[i].id != id
    ensures IsSubsequence(r, reqs)
    ensures forall x :: multiset(r)[x] == if x.id == id then 0 else multiset(reqs)[x]
  {
    WithoutId(reqs, id)
  }

  /** Success, failure and a thrown error leave the same list behind. */
  lemma DecisionIgnoresReply(reqs: seq<FriendRequest>, id: string, r1: DecisionReply, r2: DecisionReply)
    ensures AfterDecision(reqs, id, r1) == AfterDecision(reqs, id, r2)
  {
  }

  /** The answer to the pending-requests fetch: `success` and `data`, or a thrown error. */
  datatype FetchReply = Listed(success: bool, data: Option<seq<FriendRequest>>) | FetchThrew

  const LoadFailedMessage := "Could not load friend requests."

  /** The component's state: the requests, the error text, and whether it is loading. */
  datatype RequestsView = RequestsView(requests: seq<FriendRequest>, error: string, loading: bool)

  const InitialView: RequestsView := RequestsView([], "", true)

  /**
   * `fetchFriendRequests`: an unsuccessful answer empties the list, a
   * successful one takes `data` (or empty when it is missing), a thrown error
   * keeps the list and sets the error text; loading ends in every case.
   */
  function AfterFetch(v: RequestsView, reply: FetchReply): (r: RequestsView)
    ensures !r.loading
    ensures reply.Listed? && !reply.success ==> r.requests == [] && r.error == v.error
    ensures reply.Listed? && reply.success ==>
      r.error == v.error && r.requests == (if reply.data.Some? then reply.data.value else [])
    ensures reply.FetchThrew? ==> r.requests == v.requests && r.error == LoadFailedMessage
  {
    match reply
    case Listed(success, data) =>
      var requests := if !success then [] else if data.Some? then data.value else [];
      RequestsView(requests, v.error, false)
    case FetchThrew =>
      RequestsView(v.requests, LoadFailedMessage, false)
  }

  /** What the component renders: the spinner, the error, the "no pending" notice, or the cards. */
  datatype Screen = Spinner | ErrorAlert(text: string) | NoPending | RequestCards(requests: seq<FriendRequest>)

  function ScreenOf(v: RequestsView): (sc: Screen)
    ensures sc == Spinner <==> v.loading
    ensures sc.ErrorAlert? <==> !v.loading && v.error != ""
    ensures sc.ErrorAlert? ==> sc.text == v.error
    ensures sc == NoPending <==> !v.loading && v.error == "" && |v.requests| == 0
    ensures sc.RequestCards? ==> sc.requests == v.requests && |v.requests| > 0
  {
    if v.loading then Spinner
    else if v.error != "" then ErrorAlert(v.error)
    else if |v.requests| == 0 then NoPending
    else RequestCards(v.requests)
  }

  /**
   * What the first fetch leaves on screen: a thrown error shows the error
   * text, an unsuccessful answer the "no pending" notice, and a successful
   * one the cards, or the notice when there are none.
   */
  lemma FirstFetchShows(reply: FetchReply)
    ensures var sc := ScreenOf(AfterFetch(InitialView, reply));
      match reply
      case FetchThrew => sc == ErrorAlert(LoadFailedMessage)
      case Listed(success, data) =>
        if success && data.Some? && |data.value| > 0 then sc == RequestCards(data.value) else sc == NoPending
  {
  }

  /** Once an error is shown, neither a later decision nor a later empty answer removes it. */
  lemma ErrorStaysShown(v: RequestsView, id: string, reply: FetchReply)
    requires !v.loading && v.error != ""
    ensures ScreenOf(v.(requests := AfterDecision(v.requests, id, Answered(true)))) == ErrorAlert(v.error)
    ensures ScreenOf(AfterFetch(v, reply)).ErrorAlert?
  {
  }
}
