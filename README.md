# Session and UI state of the posts client

This project models the state machine at the centre of the posts/blogging
browser client (`app/Main.js`). The client holds one session/UI state:
whether the user is signed in, the user's name, avatar and token, a list of
flash messages, whether the search overlay and the chat panel are open, and
a count of unread chat messages. Named actions change it through a reducer
that mutates an Immer draft in place. Around the reducer sit three rules:

- the initial state is read from the browser's durable store;
- an effect writes the user's three fields to the store while signed in and
  removes them otherwise;
- a start-up check of the stored token signs the user out with a fixed
  notice when the backend answers falsy.

Modules:

- `Wrappers` (wrappers.dfy): `Option`, for values that may be absent.
- `SessionState` (session_state.dfy): the `State` and `User` records, the
  `Action` datatype with typed payloads, `Classify` (the switch on the
  action's `type` string, with every other string going to the `default`
  branch), and `Reduce`, the transition function, with one lemma per action.
- `Dispatching` (dispatching.dfy): `ReduceAll` folds the reducer over a
  sequence of dispatched actions. `Expected` describes the outcome field by
  field without using the reducer. `ReduceAllMatchesExpected` proves the two
  agree on every start state and every sequence, and the sequence
  properties (non-negative count, append-only messages, user changed only by
  a login) follow from it.
- `Persistence` (persistence.dfy): the store as a `map<string, string>`, with
  `getItem`, `setItem` and `removeItem`; the initial state; the storage sync
  and the effect that runs it when the login flag changes; and the
  reload round trip.
- `Draft` (draft.dfy): the class `StateDraft`, the mutable state object. It
  has one method per action that performs that action's field assignments,
  and `Dispatch`, which selects the method by action. Every method is proved
  to end in `Reduce(old(Snapshot()), a)` and to keep the count non-negative.
- `Startup` (startup.dfy): the token check's outcome as a sequence of
  actions, folded through the reducer, and the response handler as a method
  on the draft.

Three points where the code is easy to misread, and which the model follows:

- The storage effect runs after the first render, not only when the login
  flag changes: its dependency list is `[state.loggedIn]`. `StorageEffect`
  models this with `prev == None` for the first render.
- A logout does not clear the user fields; they stay stale.
- A stored value is written with `setItem`, which turns a missing value
  into the text "null". `StoredText` models this.

Inputs from outside become parameters: the contents of the store (`st`),
the backend's answer to the token check (`Option<bool>`, where `None` is a
request that failed or was cancelled), and the login flag at the previous
render (`prev`).

## Model

| member | source | states |
|---|---|---|
| `SessionState.Classify` | app/Main.js:49-81 | the action read from an object of type `kind` has exactly that type; it is the unrecognised action exactly when `kind` is none of the nine type strings; it carries the object's login data or flash text |
| `SessionState.ClassifyTypeOf` | app/Main.js:49-81 | reading an action back from its own type string and payload gives the same action |
| `SessionState.Reduce` | app/Main.js:48-83 | one transition: old flash messages stay a prefix and at most one is added; a non-negative count stays non-negative; only login/logout change the flag; only login changes the user; an unrecognised action changes nothing |
| `SessionState.LoginEffect` | app/Main.js:50-55 | `login` sets the flag and the three user fields to the payload; flash messages, both overlay flags and the count are unchanged |
| `SessionState.LogoutEffect` | app/Main.js:56-58 | `logout` clears the flag and leaves every other field, including the user, unchanged |
| `SessionState.LoginThenLogout` | app/Main.js:50-58 | after `login` then `logout`, the user is signed out and the login's fields remain |
| `SessionState.AddFlashMessageEffect` | app/Main.js:59-61 | `addFlashMessage(v)` grows the list by exactly one element, `v`, at the end; the old list is the prefix; nothing else changes |
| `SessionState.SearchEffect` | app/Main.js:62-67 | `openSearch`/`closeSearch` set/clear the search flag, change nothing else, and are idempotent |
| `SessionState.ChatEffect` | app/Main.js:68-73 | `toggleChat` negates the chat flag and twice restores the state; `closeChat` clears it, changes nothing else and is idempotent |
| `SessionState.UnreadCountEffect` | app/Main.js:74-79 | increment adds exactly 1; clear yields 0 from any count; neither changes another field; increment then clear gives 0 |
| `SessionState.UnknownTypeUnchanged` | app/Main.js:80-81 | an action object whose type is none of the nine leaves the state unchanged |
| `Dispatching.ReduceAll` | app/Main.js:85 | dispatched actions are applied one at a time, in order; each adds at most one flash message, and a sequence of unrecognised actions leaves the state unchanged |
| `Dispatching.ReduceAllAppend` | app/Main.js:85 | dispatching `p + q` is dispatching `p` and then `q` |
| `Dispatching.ReduceAllMatchesExpected` | app/Main.js:48-83 | for every start state and action sequence, the reducer's result equals the closed form: the flag of the last login/logout, the user of the last login, the flag of the last search action, the chat flag from the last close flipped once per later toggle, the count from the last clear plus later increments, and all flash values appended in order |
| `Dispatching.UnreadCountStaysNonNegative` | app/Main.js:74-79 | from a non-negative count, no action sequence makes the count negative |
| `Dispatching.FlashMessagesAppendOnly` | app/Main.js:59-61 | over any sequence, the messages are the old ones followed by the dispatched flash values in order |
| `Dispatching.UserChangesOnlyByLogin` | app/Main.js:50-58 | a sequence without a login leaves the user record unchanged |
| `Dispatching.UnknownActionsIgnored` | app/Main.js:80-81 | removing an unrecognised action from anywhere in a sequence does not change the result |
| `Persistence.InitialState` | app/Main.js:35-46 | signed in exactly when a non-empty token is stored; each user field is the stored value or absent; no flash messages, both overlays closed, count 0 |
| `Persistence.GetItem` | app/Main.js:36-41 | `getItem`: a value exactly for a stored key, and then the stored value |
| `Persistence.SetItem` | app/Main.js:89-91 | `setItem`: the key then holds the stored text of the value; every other key is unchanged |
| `Persistence.RemoveItem` | app/Main.js:93-95 | `removeItem`: the key is then absent; every other key is unchanged |
| `Persistence.Truthy` | app/Main.js:36 | `Boolean` of a stored value: true only for a present value, and for a present value exactly when it is non-empty |
| `Persistence.StoredText` | app/Main.js:89-91 | the text `setItem` stores: the value itself when present, the text "null" when absent |
| `Persistence.SyncStorage` | app/Main.js:88-96 | after the sync the three keys are all present when signed in, holding the user's fields as stored strings, and all absent otherwise; no other key changes |
| `Persistence.StorageEffect` | app/Main.js:87-97 | whenever it runs (on the first render, or when the flag differs from the previous render's) the three keys end up present exactly when signed in, whatever the store held before; a store that matched the previous flag keeps matching; when it runs while signed in, the three keys hold the user's fields as stored strings; keys outside the three never change; while the flag is unchanged the store is untouched |
| `Persistence.ReloadAfterSync` | app/Main.js:87-97 | building the initial state from the synced store gives signed out with no user after a logout, and the synced user, signed in iff its token is non-empty, after a login; a user with all fields present comes back unchanged |
| `Persistence.StartupSyncIsStable` | app/Main.js:87-97 | the first sync leaves a store holding all three keys with a non-empty token exactly as it was, and removes only the three keys from a store that starts signed out |
| `Persistence.MissingFieldStoredAsNull` | app/Main.js:89-91 | a stored token without a stored username makes the first sync store the text "null", which is read back as the username |
| `Persistence.ReloginKeepsStoredUser` | app/Main.js:97 | a login while already signed in does not run the effect, so the store keeps the earlier fields |
| `Draft.StateDraft.constructor` | app/Main.js:35-46 | the new draft holds the initial state read from the store |
| `Draft.StateDraft.Login` | app/Main.js:50-55 | sets the flag and the three user fields in place; the other fields are unchanged; the new state is `Reduce` of the old one |
| `Draft.StateDraft.Logout` | app/Main.js:56-58 | clears the flag; every other field is unchanged |
| `Draft.StateDraft.AddFlashMessage` | app/Main.js:59-61 | appends the value to the message list; every other field is unchanged |
| `Draft.StateDraft.OpenSearch` | app/Main.js:62-64 | sets the search flag; every other field is unchanged |
| `Draft.StateDraft.CloseSearch` | app/Main.js:65-67 | clears the search flag; every other field is unchanged |
| `Draft.StateDraft.ToggleChat` | app/Main.js:68-70 | negates the chat flag; every other field is unchanged |
| `Draft.StateDraft.CloseChat` | app/Main.js:71-73 | clears the chat flag; every other field is unchanged |
| `Draft.StateDraft.IncrementUnreadChatCount` | app/Main.js:74-76 | adds one to the count; every other field is unchanged |
| `Draft.StateDraft.ClearUnreadChatCount` | app/Main.js:77-79 | sets the count to 0; every other field is unchanged |
| `Draft.StateDraft.Dispatch` | app/Main.js:48-83 | the draft ends in `Reduce` of its old state; an unrecognised action leaves it unchanged; the count stays non-negative |
| `Startup.CheckTokenActions` | app/Main.js:109-115 | the answer dispatches nothing exactly when it is truthy |
| `Startup.StartupActions` | app/Main.js:99-124 | the check dispatches something exactly when the initial state is signed in and the answer is falsy; a failed or cancelled request dispatches nothing |
| `Startup.ExpiredTokenSignsOut` | app/Main.js:109-115 | a falsy answer leaves the user signed out with the expiry notice appended as the last message; user, overlays and count are unchanged |
| `Startup.ValidTokenKeepsState` | app/Main.js:109 | a truthy answer leaves the state unchanged |
| `Startup.StartupOutcome` | app/Main.js:99-124 | on the initial state, with no other action dispatched before the answer arrives: the user stays signed in unless the answer is falsy; a falsy answer leaves only the expiry notice; a failed or cancelled request changes nothing (an answer applied to any state is covered by `Startup.ExpiredTokenSignsOut` and `Startup.HandleCheckTokenResponse`) |
| `Startup.ExpiredTokenClearsStorage` | app/Main.js:109-115 | from any state whose store matches its login flag, after a falsy answer the storage effect leaves none of the three keys, whether the user was still signed in or had already signed out |
| `Startup.ReachableUnreadCountNonNegative` | app/Main.js:45 | from the initial state, whose count is 0, no action sequence makes the count negative |
| `Startup.HandleCheckTokenResponse` | app/Main.js:109-115 | dispatching the answer's actions on the draft gives the state that folding them through the reducer gives |

## Left out

- Rendering, routing, lazy loading and the mount of the application (app/Main.js:1-33, 127-170): they are UI wiring with no state logic.
- The HTTP requests, the backend URL and the cancel tokens (app/Main.js:7-8, 99-124): the answer to the token check is a parameter, and a failed or cancelled request is `None`, which dispatches nothing and only writes a console message (app/Main.js:116-117), which is not modelled.
- The browser store itself: it is modelled as a map, not as the browser API.
- Malformed or untyped action payloads, which would put `undefined` into the state or make the reducer throw (a `login` without a `data` object): actions carry typed payloads.
- `unreadChatCount` is a JavaScript number, which loses precision above 2^53; the model uses an unbounded integer.
- Immer's copy-on-write: the draft is a plain mutable object. The `default` branch returns the draft itself, which Immer treats as "no change"; the model leaves the draft unchanged.
- React may batch several dispatches into one render, and the storage effect then sees only the final login flag. `StorageEffect` takes the flags of two consecutive renders, whatever was dispatched between them.
- app/components/ProfilePosts.js: it only fetches a profile's posts over HTTP and renders them.
- app/components/Header.js: it only chooses a header by the login flag.
