/**
 * Start-up: the state is built from the store, and when it is signed in
 * the stored token is checked once against the backend. A falsy answer
 * signs the user out and adds an expiry notice; a request that fails or is
 * cancelled dispatches nothing.
 */
module Startup {
  import opened Wrappers
  import opened SessionState
  import opened Dispatching
  import Persistence
  import Draft

  const ExpiredMessage := "Your session has expired. Please log in again"

  /** The actions dispatched for the backend's answer `valid` to the token check. */
  function CheckTokenActions(valid: bool): (acts: seq<Action>)
    ensures valid <==> acts == []
  {
    if valid then [] else [Logout, AddFlashMessage(ExpiredMessage)]
  }

  /**
   * The actions the start-up check dispatches from the initial state
   * `init`: none unless `init` is signed in; `response` is None when the
   * request failed or was cancelled, which dispatches nothing either.
   */
  function StartupActions(init: State, response: Option<bool>): (acts: seq<Action>)
    ensures acts != [] <==> init.loggedIn && response == Some(false)
  {
    if init.loggedIn && response.Some? then CheckTokenActions(response.value) else []
  }

  /** Dispatching the two actions in order, as spelled out by the fold. */
  lemma ReduceAllPair(s: State, a: Action, b: Action)
    ensures ReduceAll(s, [a, b]) == Reduce(Reduce(s, a), b)
  {
    assert [a, b][..1] == [a];
    assert [a][..0] == [];
    assert ReduceAll(s, [a]) == Reduce(s, a);
  }

  /** A falsy answer signs the user out and leaves the expiry notice as the last flash message; nothing else changes. */
  lemma ExpiredTokenSignsOut(s: State)
    ensures var r := ReduceAll(s, CheckTokenActions(false));
      !r.loggedIn &&
      r.flashMessages == s.flashMessages + [ExpiredMessage] &&
      r.flashMessages[|r.flashMessages| - 1] == ExpiredMessage &&
      r.user == s.user && r.isSearchOpen == s.isSearchOpen &&
      r.isChatOpen == s.isChatOpen && r.unreadChatCount == s.unreadChatCount
  {
    ReduceAllPair(s, Logout, AddFlashMessage(ExpiredMessage));
  }

  /** A truthy answer leaves the state as it was. */
  lemma ValidTokenKeepsState(s: State)
    ensures ReduceAll(s, CheckTokenActions(true)) == s
  {
  }

  /**
   * The outcome of the start-up check on the initial state read from `st`,
   * when the answer arrives before any other action is dispatched: the user
   * stays signed in unless the answer is falsy; a falsy answer leaves only
   * the expiry notice; a failed or cancelled request changes nothing. The
   * answer arrives asynchronously, so other actions may come first;
   * `ExpiredTokenSignsOut` and `HandleCheckTokenResponse` cover an answer
   * applied to any state.
   */
  lemma StartupOutcome(st: Persistence.Storage, response: Option<bool>)
    ensures var init := Persistence.InitialState(st);
      var r := ReduceAll(init, StartupActions(init, response));
      (r.loggedIn <==> init.loggedIn && response != Some(false)) &&
      (init.loggedIn && response == Some(false) ==> r.flashMessages == [ExpiredMessage]) &&
      (response.None? ==> r == init)
  {
    var init := Persistence.InitialState(st);
    if init.loggedIn && response == Some(false) {
      ExpiredTokenSignsOut(init);
    } else if init.loggedIn && response.Some? {
      ValidTokenKeepsState(init);
    }
  }

  /**
   * After a falsy answer the storage effect leaves none of the three keys:
   * a signed-in user is signed out and the effect removes them; a user who
   * signed out before the answer arrived already had them removed.
   */
  lemma ExpiredTokenClearsStorage(st: Persistence.Storage, s: State)
    requires Persistence.Mirrors(st, s.loggedIn)
    ensures var r := ReduceAll(s, CheckTokenActions(false));
      Persistence.StorageEffect(st, Some(s.loggedIn), r).Keys !! Persistence.SessionKeys
  {
    ExpiredTokenSignsOut(s);
  }

  /** From the initial state, with its count of zero, no sequence of actions makes the unread count negative. */
  lemma ReachableUnreadCountNonNegative(st: Persistence.Storage, acts: seq<Action>)
    ensures ReduceAll(Persistence.InitialState(st), acts).unreadChatCount >= 0
  {
    UnreadCountStaysNonNegative(Persistence.InitialState(st), acts);
  }

  /** The response handler of the token check, dispatching on the draft. */
  method HandleCheckTokenResponse(d: Draft.StateDraft, valid: bool)
    requires d.Valid()
    modifies d
    ensures d.Valid()
    ensures d.Snapshot() == ReduceAll(old(d.Snapshot()), CheckTokenActions(valid))
  {
    if !valid {
      ghost var s := d.Snapshot();
      d.Dispatch(Logout);
      d.Dispatch(AddFlashMessage(ExpiredMessage));
      ReduceAllPair(s, Logout, AddFlashMessage(ExpiredMessage));
    }
  }
}
