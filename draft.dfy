/**
 * The state object the reducer mutates in place. Each method performs one
 * action's assignments on the fields, and `Dispatch` selects the method by
 * action type; every method ends in the state that `Reduce` describes.
 */
module Draft {
  import opened Wrappers
  import opened SessionState
  import Persistence

  class StateDraft {
    var loggedIn: bool
    var flashMessages: seq<string>
    var user: User
    var isSearchOpen: bool
    var isChatOpen: bool
    var unreadChatCount: int

    /** The unread count never drops below zero. */
    ghost predicate Valid()
      reads this
    {
      unreadChatCount >= 0
    }

    /** The fields, read as one state value. */
    function Snapshot(): State
      reads this
    {
      State(loggedIn, flashMessages, user, isSearchOpen, isChatOpen, unreadChatCount)
    }

    /** Builds the initial state from the contents of the store. */
    constructor (st: Persistence.Storage)
      ensures Valid()
      ensures Snapshot() == Persistence.InitialState(st)
    {
      loggedIn := Persistence.Truthy(Persistence.GetItem(st, Persistence.TokenKey));
      flashMessages := [];
      user := User(
        Persistence.GetItem(st, Persistence.UsernameKey),
        Persistence.GetItem(st, Persistence.AvatarKey),
        Persistence.GetItem(st, Persistence.TokenKey));
      isSearchOpen := false;
      isChatOpen := false;
      unreadChatCount := 0;
    }

    method Login(data: LoginData)
      requires Valid()
      modifies this
      ensures Valid()
      ensures loggedIn
      ensures user.username == Some(data.username) && user.avatar == Some(data.avatar) && user.token == Some(data.token)
      ensures flashMessages == old(flashMessages) && isSearchOpen == old(isSearchOpen)
      ensures isChatOpen == old(isChatOpen) && unreadChatCount == old(unreadChatCount)
      ensures Snapshot() == Reduce(old(Snapshot()), Action.Login(data))
    {
      loggedIn := true;
      user := user.(username := Some(data.username));
      user := user.(avatar := Some(data.avatar));
      user := user.(token := Some(data.token));
    }

    method Logout()
      requires Valid()
      modifies this
      ensures Valid()
      ensures !loggedIn
      ensures user == old(user) && flashMessages == old(flashMessages) && isSearchOpen == old(isSearchOpen)
      ensures isChatOpen == old(isChatOpen) && unreadChatCount == old(unreadChatCount)
      ensures Snapshot() == Reduce(old(Snapshot()), Action.Logout)
    {
      loggedIn := false;
    }

    method AddFlashMessage(value: string)
      requires Valid()
      modifies this
      ensures Valid()
      ensures flashMessages == old(flashMessages) + [value]
      ensures loggedIn == old(loggedIn) && user == old(user) && isSearchOpen == old(isSearchOpen)
      ensures isChatOpen == old(isChatOpen) && unreadChatCount == old(unreadChatCount)
      ensures Snapshot() == Reduce(old(Snapshot()), Action.AddFlashMessage(value))
    {
      flashMessages := flashMessages + [value];
    }

    method OpenSearch()
      requires Valid()
      modifies this
      ensures Valid()
      ensures isSearchOpen
      ensures loggedIn == old(loggedIn) && user == old(user) && flashMessages == old(flashMessages)
      ensures isChatOpen == old(isChatOpen) && unreadChatCount == old(unreadChatCount)
      ensures Snapshot() == Reduce(old(Snapshot()), Action.OpenSearch)
    {
      isSearchOpen := true;
    }

    method CloseSearch()
      requires Valid()
      modifies this
      ensures Valid()
      ensures !isSearchOpen
      ensures loggedIn == old(loggedIn) && user == old(user) && flashMessages == old(flashMessages)
      ensures isChatOpen == old(isChatOpen) && unreadChatCount == old(unreadChatCount)
      ensures Snapshot() == Reduce(old(Snapshot()), Action.CloseSearch)
    {
      isSearchOpen := false;
    }

    method ToggleChat()
      requires Valid()
      modifies this
      ensures Valid()
      ensures isChatOpen == !old(isChatOpen)
      ensures loggedIn == old(loggedIn) && user == old(user) && flashMessages == old(flashMessages)
      ensures isSearchOpen == old(isSearchOpen) && unreadChatCount == old(unreadChatCount)
      ensures Snapshot() == Reduce(old(Snapshot()), Action.ToggleChat)
    {
      isChatOpen := !isChatOpen;
    }

    method CloseChat()
      requires Valid()
      modifies this
      ensures Valid()
      ensures !isChatOpen
      ensures loggedIn == old(loggedIn) && user == old(user) && flashMessages == old(flashMessages)
      ensures isSearchOpen == old(isSearchOpen) && unreadChatCount == old(unreadChatCount)
      ensures Snapshot() == Reduce(old(Snapshot()), Action.CloseChat)
    {
      isChatOpen := false;
    }

    method IncrementUnreadChatCount()
      requires Valid()
      modifies this
      ensures Valid()
      ensures unreadChatCount == old(unreadChatCount) + 1
      ensures loggedIn == old(loggedIn) && user == old(user) && flashMessages == old(flashMessages)
      ensures isSearchOpen == old(isSearchOpen) && isChatOpen == old(isChatOpen)
      ensures Snapshot() == Reduce(old(Snapshot()), Action.IncrementUnreadChatCount)
    {
      unreadChatCount := unreadChatCount + 1;
    }

    method ClearUnreadChatCount()
      requires Valid()
      modifies this
      ensures Valid()
      ensures unreadChatCount == 0
      ensures loggedIn == old(loggedIn) && user == old(user) && flashMessages == old(flashMessages)
      ensures isSearchOpen == old(isSearchOpen) && isChatOpen == old(isChatOpen)
      ensures Snapshot() == Reduce(old(Snapshot()), Action.ClearUnreadChatCount)
    {
      unreadChatCount := 0;
    }

    /** The reducer: performs the assignments of the action's type; any other type changes nothing. */
    method Dispatch(a: Action)
      requires Valid()
      modifies this
      ensures Valid()
      ensures Snapshot() == Reduce(old(Snapshot()), a)
      ensures a.Other? ==> Snapshot() == old(Snapshot())
    {
      match a
      case Login(d) => Login(d);
      case Logout => Logout();
      case AddFlashMessage(v) => AddFlashMessage(v);
      case OpenSearch => OpenSearch();
      case CloseSearch => CloseSearch();
      case ToggleChat => ToggleChat();
      case CloseChat => CloseChat();
      case IncrementUnreadChatCount => IncrementUnreadChatCount();
      case ClearUnreadChatCount => ClearUnreadChatCount();
      case Other(_) =>
    }
  }
}
