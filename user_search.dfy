/**
 * The user search page (src/pages/home/Search.js): the query with its
 * 500 ms debounce, the blank-query guard, the search results and their
 * "request sent" marks, the button each result shows and the "No users
 * found" notice.
 */
module UserSearch {
  import opened Wrappers
  import opened Text

  /** One search result. */
  datatype SearchUser = SearchUser(id: string, username: string, firstName: string, lastName: string, isFriend: bool, requestSent: bool)

  /** After a sent request: `prev.map(u => u._id === userId ? { ...u, requestSent: true } : u)`. */
  function MarkRequestSent(users: seq<SearchUser>, userId: string): (r: seq<SearchUser>)
    ensures |r| == |users|
    ensures forall i :: 0 <= i < |users| ==> r[i] == if users[i].id == userId then users[i].(requestSent := true) else users[i]
  {
    seq(|users|, i requires 0 <= i < |users| => if users[i].id == userId then users[i].(requestSent := true) else users[i])
  }

  /** The button a result card shows. */
  datatype RequestButton = AlreadyFriends | RequestSent | SendRequest

  function ButtonFor(u: SearchUser): (b: RequestButton)
    ensures b == AlreadyFriends <==> u.isFriend
    ensures b == RequestSent <==> !u.isFriend && u.requestSent
    ensures b == SendRequest <==> !u.isFriend && !u.requestSent
  {
    if u.isFriend then AlreadyFriends else if u.requestSent then RequestSent else SendRequest
  }

  /**
   * Marking a user leaves no way to send them a second request, and changes
   * no other card.
   */
  lemma MarkingDisablesOnlyThatUser(users: seq<SearchUser>, userId: string)
    ensures var r := MarkRequestSent(users, userId);
      forall i :: 0 <= i < |users| ==>
        if users[i].id == userId then ButtonFor(r[i]) != SendRequest
        else ButtonFor(r[i]) == ButtonFor(users[i])
  {
  }

  /** Marking the same user twice is the same as marking once. */
  lemma MarkRequestSentIdempotent(users: seq<SearchUser>, userId: string)
    ensures MarkRequestSent(MarkRequestSent(users, userId), userId) == MarkRequestSent(users, userId)
  {
  }

  /** The "No users found" notice. */
  predicate ShowNoUsers(searching: bool, query: string, users: seq<SearchUser>)
  {
    !searching && !IsBlank(query) && |users| == 0
  }

  /**
   * The notice shows exactly when no search is under way, the query has a
   * non-space character and there are no results.
   */
  lemma NoUsersNotice(searching: bool, query: string, users: seq<SearchUser>)
    ensures ShowNoUsers(searching, query, users) <==>
      !searching && |users| == 0 && exists k :: 0 <= k < |query| && !IsSpace(query[k])
  {
    BlankIffAllSpace(query);
  }

  /** The answer to a search request. */
  datatype SearchReply = SearchUnauthorized | SearchAnswered(success: bool, data: seq<SearchUser>) | SearchThrew

  class SearchPage {
    var query: string
    var users: seq<SearchUser>
    var searching: bool
    /** The term captured by the one pending debounce timer, if any. */
    var pendingSearch: Option<string>

    /** Mounted: the effect for the empty query installs its timer. */
    constructor ()
      ensures query == "" && users == [] && !searching && pendingSearch == Some("")
    {
      query := "";
      users := [];
      searching := false;
      pendingSearch := Some("");
    }

    /**
     * Typing in the box: the query changes, and the effect clears the old
     * timer and installs one for the new query.
     */
    method ChangeQuery(q: string)
      modifies this`query, this`pendingSearch
      ensures query == q && pendingSearch == Some(q)
    {
      query := q;
      pendingSearch := Some(q);
    }

    /**
     * The debounce timer fires: a blank term never starts a search; any
     * other term starts one for that exact (untrimmed) term.
     */
    method DebounceFired() returns (request: Option<string>)
      modifies this`pendingSearch, this`searching
      ensures pendingSearch == None
      ensures request.Some? <==> old(pendingSearch).Some? && !IsBlank(old(pendingSearch).value)
      ensures request.Some? ==> request == old(pendingSearch) && searching
      ensures request.None? ==> searching == old(searching)
    {
      request := None;
      if pendingSearch.Some? {
        var term := pendingSearch.value;
        pendingSearch := None;
        if !IsBlank(term) {
          request := FetchUsers(term);
        }
      }
      pendingSearch := None;
    }

    /** `fetchUsers`: a blank term returns at once; otherwise the search is under way. */
    method FetchUsers(term: string) returns (request: Option<string>)
      modifies this`searching
      ensures IsBlank(term) ==> request == None && searching == old(searching)
      ensures !IsBlank(term) ==> request == Some(term) && searching
    {
      if IsBlank(term) {
        return None;
      }
      searching := true;
      request := Some(term);
    }

    /**
     * The search answer arrives: a successful one replaces the results; a
     * 401, a failure and a thrown error keep them; searching ends in every case.
     */
    method SearchAnswered(reply: SearchReply) returns (sessionExpired: bool)
      modifies this`users, this`searching
      ensures !searching
      ensures sessionExpired <==> reply.SearchUnauthorized?
      ensures users == (if reply.SearchAnswered? && reply.success then reply.data else old(users))
    {
      sessionExpired := false;
      match reply {
        case SearchUnauthorized =>
          sessionExpired := true;
        case SearchAnswered(success, data) =>
          if success {
            users := data;
          }
        case SearchThrew =>
      }
      searching := false;
    }

    /** `handleSendRequest`'s answer: only a success marks the user. */
    method SendRequestAnswered(userId: string, success: bool)
      modifies this`users
      ensures users == (if success then MarkRequestSent(old(users), userId) else old(users))
    {
      if success {
        users := MarkRequestSent(users, userId);
      }
    }
  }
}
