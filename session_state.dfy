/**
 * The client's session and UI state and the reducer that updates it.
 * `Reduce` is the transition function of the reducer in app/Main.js; the
 * class in module Draft performs the same transitions in place.
 */
module SessionState {
  import opened Wrappers

  /** The signed-in user as the state holds it; each field may be absent when read back from storage. */
  datatype User = User(username: Option<string>, avatar: Option<string>, token: Option<string>)

  datatype State = State(
    loggedIn: bool,
    flashMessages: seq<string>,
    user: User,
    isSearchOpen: bool,
    isChatOpen: bool,
    unreadChatCount: int)

  /** The `data` payload of a `login` action. */
  datatype LoginData = LoginData(username: string, avatar: string, token: string)

  /** The user record that a `login` with payload `d` installs. */
  function UserOf(d: LoginData): User {
    User(Some(d.username), Some(d.avatar), Some(d.token))
  }

  /** The nine `type` strings the reducer recognises. */
  const KnownTypes: set<string> := {
    "login", "logout", "addFlashMessage", "openSearch", "closeSearch",
    "toggleChat", "closeChat", "incrementUnreadChatCount", "clearUnreadChatCount"
  }

  /** Any other action type: the reducer's `default` branch. */
  type OtherType = t: string | t !in KnownTypes witness ""

  /** A dispatched action with its typed payload. */
  datatype Action =
    | Login(data: LoginData)
    | Logout
    | AddFlashMessage(value: string)
    | OpenSearch
    | CloseSearch
    | ToggleChat
    | CloseChat
    | IncrementUnreadChatCount
    | ClearUnreadChatCount
    | Other(kind: OtherType)

  /** The `type` field of the action object. */
  function TypeOf(a: Action): string {
    match a
    case Login(_) => "login"
    case Logout => "logout"
    case AddFlashMessage(_) => "addFlashMessage"
    case OpenSearch => "openSearch"
    case CloseSearch => "closeSearch"
    case ToggleChat => "toggleChat"
    case CloseChat => "closeChat"
    case IncrementUnreadChatCount => "incrementUnreadChatCount"
    case ClearUnreadChatCount => "clearUnreadChatCount"
    case Other(k) => k
  }

  /**
   * The reducer's `switch (action.type)`: reads an action object with type
   * `kind`, login payload `data` and flash text `value` as an Action.
   */
  function Classify(kind: string, data: LoginData, value: string): (a: Action)
    ensures TypeOf(a) == kind
    ensures a.Other? <==> kind !in KnownTypes
    ensures a.Login? ==> a.data == data
    ensures a.AddFlashMessage? ==> a.value == value
  {
    if kind == "login" then Login(data)
    else if kind == "logout" then Logout
    else if kind == "addFlashMessage" then AddFlashMessage(value)
    else if kind == "openSearch" then OpenSearch
    else if kind == "closeSearch" then CloseSearch
    else if kind == "toggleChat" then ToggleChat
    else if kind == "closeChat" then CloseChat
    else if kind == "incrementUnreadChatCount" then IncrementUnreadChatCount
    else if kind == "clearUnreadChatCount" then ClearUnreadChatCount
    else Other(kind)
  }

  /** Reading back an action from its own type and payload gives the same action. */
  lemma ClassifyTypeOf(a: Action, data: LoginData, value: string)
    requires a.Login? ==> data == a.data
    requires a.AddFlashMessage? ==> value == a.value
    ensures Classify(TypeOf(a), data, value) == a
  {
  }

  /**
   * One transition of the reducer. A `login` sets the flag and the user
   * record; every other action sets, clears, toggles, appends to or
   * increments one field; an unrecognised type leaves the state as it was.
   */
  function Reduce(s: State, a: Action): (r: State)
    ensures s.flashMessages <= r.flashMessages && |r.flashMessages| <= |s.flashMessages| + 1
    ensures s.unreadChatCount >= 0 ==> r.unreadChatCount >= 0
    ensures r.loggedIn != s.loggedIn ==> a.Login? || a.Logout?
    ensures r.user != s.user ==> a.Login?
    ensures a.Other? ==> r == s
  {
    match a
    case Login(d) => s.(loggedIn := true, user := UserOf(d))
    case Logout => s.(loggedIn := false)
    case AddFlashMessage(v) => s.(flashMessages := s.flashMessages + [v])
    case OpenSearch => s.(isSearchOpen := true)
    case CloseSearch => s.(isSearchOpen := false)
    case ToggleChat => s.(isChatOpen := !s.isChatOpen)
    case CloseChat => s.(isChatOpen := false)
    case IncrementUnreadChatCount => s.(unreadChatCount := s.unreadChatCount + 1)
    case ClearUnreadChatCount => s.(unreadChatCount := 0)
    case Other(_) => s
  }

  /** `login` signs the user in with the payload's fields and touches nothing else. */
  lemma LoginEffect(s: State, d: LoginData)
    ensures var r := Reduce(s, Login(d));
      r.loggedIn &&
      r.user.username == Some(d.username) && r.user.avatar == Some(d.avatar) && r.user.token == Some(d.token) &&
      r.flashMessages == s.flashMessages && r.isSearchOpen == s.isSearchOpen &&
      r.isChatOpen == s.isChatOpen && r.unreadChatCount == s.unreadChatCount
  {
  }

  /** `logout` only clears the flag: the user fields stay as they were. */
  lemma LogoutEffect(s: State)
    ensures var r := Reduce(s, Logout);
      !r.loggedIn && r.user == s.user && r.flashMessages == s.flashMessages &&
      r.isSearchOpen == s.isSearchOpen && r.isChatOpen == s.isChatOpen &&
      r.unreadChatCount == s.unreadChatCount
  {
  }

  /** After `login` then `logout` the user is signed out but the login's fields remain. */
  lemma LoginThenLogout(s: State, d: LoginData)
    ensures var r := Reduce(Reduce(s, Login(d)), Logout);
      !r.loggedIn && r.user == UserOf(d) && r.flashMessages == s.flashMessages
  {
  }

  /** `addFlashMessage` appends exactly its value and keeps the earlier messages in order. */
  lemma AddFlashMessageEffect(s: State, v: string)
    ensures var r := Reduce(s, AddFlashMessage(v));
      |r.flashMessages| == |s.flashMessages| + 1 &&
      r.flashMessages[..|s.flashMessages|] == s.flashMessages &&
      r.flashMessages[|s.flashMessages|] == v &&
      r.(flashMessages := s.flashMessages) == s
  {
  }

  /** `openSearch` and `closeSearch` set the overlay flag; each is idempotent. */
  lemma SearchEffect(s: State)
    ensures Reduce(s, OpenSearch).isSearchOpen && !Reduce(s, CloseSearch).isSearchOpen
    ensures Reduce(s, OpenSearch).(isSearchOpen := s.isSearchOpen) == s
    ensures Reduce(s, CloseSearch).(isSearchOpen := s.isSearchOpen) == s
    ensures Reduce(Reduce(s, OpenSearch), OpenSearch) == Reduce(s, OpenSearch)
    ensures Reduce(Reduce(s, CloseSearch), CloseSearch) == Reduce(s, CloseSearch)
  {
  }

  /** `toggleChat` twice restores the state; `closeChat` closes and is idempotent. */
  lemma ChatEffect(s: State)
    ensures Reduce(s, ToggleChat).isChatOpen == !s.isChatOpen
    ensures Reduce(Reduce(s, ToggleChat), ToggleChat) == s
    ensures !Reduce(s, CloseChat).isChatOpen
    ensures Reduce(s, CloseChat).(isChatOpen := s.isChatOpen) == s
    ensures Reduce(Reduce(s, CloseChat), CloseChat) == Reduce(s, CloseChat)
  {
  }

  /** `incrementUnreadChatCount` adds one; `clearUnreadChatCount` yields zero from any count. */
  lemma UnreadCountEffect(s: State)
    ensures Reduce(s, IncrementUnreadChatCount).unreadChatCount == s.unreadChatCount + 1
    ensures Reduce(s, IncrementUnreadChatCount).(unreadChatCount := s.unreadChatCount) == s
    ensures Reduce(s, ClearUnreadChatCount).unreadChatCount == 0
    ensures Reduce(s, ClearUnreadChatCount).(unreadChatCount := s.unreadChatCount) == s
    ensures Reduce(Reduce(s, IncrementUnreadChatCount), ClearUnreadChatCount).unreadChatCount == 0
  {
  }

  /** An action object of unrecognised type leaves the state unchanged. */
  lemma UnknownTypeUnchanged(s: State, kind: string, data: LoginData, value: string)
    requires kind !in KnownTypes
    ensures Reduce(s, Classify(kind, data, value)) == s
  {
  }
}
