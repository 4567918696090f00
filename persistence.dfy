/**
 * The browser's durable key/value store as the application uses it: the
 * initial state is read from it, and an effect writes the signed-in user
 * to it or removes them from it whenever the login flag changes.
 */
module Persistence {
  import opened Wrappers
  import opened SessionState

  /** The store: string keys to string values. */
  type Storage = map<string, string>

  const UsernameKey := "postsappUsername"
  const AvatarKey := "postsappAvatar"
  const TokenKey := "postsappToken"

  /** The three keys that hold the signed-in user. */
  const SessionKeys: set<string> := {UsernameKey, AvatarKey, TokenKey}

  /** `getItem`: the stored value, or nothing (`null`) for a missing key. */
  function GetItem(st: Storage, key: string): (r: Option<string>)
    ensures r.Some? <==> key in st
    ensures r.Some? ==> r.value == st[key]
  {
    if key in st then Some(st[key]) else None
  }

  /** `Boolean(v)` for a value read from the store: absent and empty strings are falsy. */
  function Truthy(v: Option<string>): (b: bool)
    ensures b ==> v.Some?
    ensures v.Some? ==> (b <==> |v.value| > 0)
  {
    v.Some? && v.value != ""
  }

  /** The string `setItem` stores for a value: a missing value (`null`) is stored as the text "null". */
  function StoredText(v: Option<string>): (text: string)
    ensures v.Some? ==> text == v.value
    ensures v.None? ==> text == "null"
  {
    if v.Some? then v.value else "null"
  }

  /** `setItem`: the key then holds the stored text of `v`; no other key changes. */
  function SetItem(st: Storage, key: string, v: Option<string>): (r: Storage)
    ensures GetItem(r, key) == Some(StoredText(v))
    ensures forall k :: k != key ==> GetItem(r, k) == GetItem(st, k)
  {
    st[key := StoredText(v)]
  }

  /** `removeItem`: the key is then absent; no other key changes. */
  function RemoveItem(st: Storage, key: string): (r: Storage)
    ensures GetItem(r, key) == None
    ensures forall k :: k != key ==> GetItem(r, k) == GetItem(st, k)
  {
    st - {key}
  }

  /** The keys of the signed-in user are all present when `loggedIn` holds and all absent otherwise. */
  predicate Mirrors(st: Storage, loggedIn: bool) {
    if loggedIn then SessionKeys <= st.Keys else SessionKeys !! st.Keys
  }

  /**
   * The state the application starts in: signed in exactly when a
   * non-empty token is stored, the user taken from the store, both
   * overlays closed, no unread messages and no flash messages.
   */
  function InitialState(st: Storage): (r: State)
    ensures r.loggedIn <==> TokenKey in st && st[TokenKey] != ""
    ensures r.loggedIn ==> r.user.token.Some?
    ensures r.user.username == (if UsernameKey in st then Some(st[UsernameKey]) else None)
    ensures r.user.avatar == (if AvatarKey in st then Some(st[AvatarKey]) else None)
    ensures r.user.token == (if TokenKey in st then Some(st[TokenKey]) else None)
    ensures r.flashMessages == [] && !r.isSearchOpen && !r.isChatOpen && r.unreadChatCount == 0
  {
    State(
      loggedIn := Truthy(GetItem(st, TokenKey)),
      flashMessages := [],
      user := User(GetItem(st, UsernameKey), GetItem(st, AvatarKey), GetItem(st, TokenKey)),
      isSearchOpen := false,
      isChatOpen := false,
      unreadChatCount := 0)
  }

  /**
   * The body of the storage effect: when signed in, store the user's
   * three fields; otherwise remove the three keys. No other key changes.
   */
  function SyncStorage(st: Storage, s: State): (r: Storage)
    ensures Mirrors(r, s.loggedIn)
    ensures s.loggedIn ==>
      r[UsernameKey] == StoredText(s.user.username) &&
      r[AvatarKey] == StoredText(s.user.avatar) &&
      r[TokenKey] == StoredText(s.user.token)
    ensures forall key :: key !in SessionKeys ==> GetItem(r, key) == GetItem(st, key)
  {
    if s.loggedIn then
      SetItem(SetItem(SetItem(st, UsernameKey, s.user.username), AvatarKey, s.user.avatar), TokenKey, s.user.token)
    else
      RemoveItem(RemoveItem(RemoveItem(st, UsernameKey), AvatarKey), TokenKey)
  }

  /**
   * The effect as React runs it: after the first render (`prev` is None)
   * and after every render in which the login flag differs from the
   * previous one; otherwise the store is left as it was.
   */
  function StorageEffect(st: Storage, prev: Option<bool>, s: State): (r: Storage)
    ensures prev.Some? && Mirrors(st, prev.value) ==> Mirrors(r, s.loggedIn)
    ensures prev != Some(s.loggedIn) ==> Mirrors(r, s.loggedIn)
    ensures prev == Some(s.loggedIn) ==> r == st
    ensures prev != Some(s.loggedIn) && s.loggedIn ==>
      GetItem(r, UsernameKey) == Some(StoredText(s.user.username)) &&
      GetItem(r, AvatarKey) == Some(StoredText(s.user.avatar)) &&
      GetItem(r, TokenKey) == Some(StoredText(s.user.token))
    ensures forall key :: key !in SessionKeys ==> GetItem(r, key) == GetItem(st, key)
  {
    if prev == Some(s.loggedIn) then st else SyncStorage(st, s)
  }

  /** Every user field is present. */
  predicate Complete(u: User) {
    u.username.Some? && u.avatar.Some? && u.token.Some?
  }

  /**
   * Reloading after the sync: a signed-out state comes back signed out with
   * no user; a signed-in state comes back signed in exactly when its token
   * is non-empty, with the user as stored, which is the same user when all
   * of its fields are present.
   */
  lemma ReloadAfterSync(st: Storage, s: State)
    ensures var r := InitialState(SyncStorage(st, s));
      (r.loggedIn <==> s.loggedIn && StoredText(s.user.token) != "") &&
      (!s.loggedIn ==> r.user == User(None, None, None)) &&
      (s.loggedIn ==> r.user == User(Some(StoredText(s.user.username)), Some(StoredText(s.user.avatar)), Some(StoredText(s.user.token)))) &&
      (s.loggedIn && Complete(s.user) ==> r.user == s.user)
  {
  }

  /**
   * The sync right after start-up writes back what was read: a store that
   * holds all three keys with a non-empty token is left as it was, and any
   * other store loses the three keys.
   */
  lemma StartupSyncIsStable(st: Storage)
    ensures var s := InitialState(st);
      (Mirrors(st, true) && st[TokenKey] != "" ==> SyncStorage(st, s) == st) &&
      (!s.loggedIn ==> SyncStorage(st, s) == st - SessionKeys)
  {
    var s := InitialState(st);
    if Mirrors(st, true) && st[TokenKey] != "" {
      var r := SyncStorage(st, s);
      assert r.Keys == st.Keys;
    } else if !s.loggedIn {
      assert SyncStorage(st, s) == st - SessionKeys;
    }
  }

  /** A signed-in state whose user was read with a missing field stores the text "null" for it. */
  lemma MissingFieldStoredAsNull(st: Storage)
    requires TokenKey in st && st[TokenKey] != "" && UsernameKey !in st
    ensures var s := InitialState(st);
      SyncStorage(st, s)[UsernameKey] == "null" &&
      InitialState(SyncStorage(st, s)).user.username == Some("null")
  {
  }

  /**
   * While the login flag does not change the effect does not run, so a
   * second login while signed in leaves the first login's fields stored.
   */
  lemma ReloginKeepsStoredUser(st: Storage, s: State, d: LoginData)
    requires s.loggedIn
    ensures StorageEffect(st, Some(s.loggedIn), Reduce(s, Login(d))) == st
  {
  }
}
