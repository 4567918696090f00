/**
 * Sequences of dispatched actions. React applies dispatched actions one at a
 * time, in order; `ReduceAll` folds the reducer over such a sequence and
 * `Expected` gives the resulting state in closed form, field by field.
 */
module Dispatching {
  import opened Wrappers
  import opened SessionState

  /** The state after dispatching `acts` in order, starting from `s`. */
  function ReduceAll(s: State, acts: seq<Action>): (r: State)
    ensures |r.flashMessages| <= |s.flashMessages| + |acts|
    ensures (forall i :: 0 <= i < |acts| ==> acts[i].Other?) ==> r == s
    decreases |acts|
  {
    if acts == [] then s else Reduce(ReduceAll(s, acts[..|acts| - 1]), acts[|acts| - 1])
  }

  predicate IsSessionChange(a: Action) { a.Login? || a.Logout? }
  predicate IsLogin(a: Action) { a.Login? }
  predicate IsSearchChange(a: Action) { a.OpenSearch? || a.CloseSearch? }
  predicate IsCloseChat(a: Action) { a.CloseChat? }
  predicate IsToggleChat(a: Action) { a.ToggleChat? }
  predicate IsClearUnread(a: Action) { a.ClearUnreadChatCount? }
  predicate IsIncrementUnread(a: Action) { a.IncrementUnreadChatCount? }

  /** The last action of `acts` that satisfies `p`, if any. */
  function LastWhere(acts: seq<Action>, p: Action -> bool): Option<Action>
    decreases |acts|
  {
    if acts == [] then None
    else if p(acts[|acts| - 1]) then Some(acts[|acts| - 1])
    else LastWhere(acts[..|acts| - 1], p)
  }

  /** The actions after the last one satisfying `p`; all of `acts` if none does. */
  function After(acts: seq<Action>, p: Action -> bool): seq<Action>
    decreases |acts|
  {
    if acts == [] then []
    else if p(acts[|acts| - 1]) then []
    else After(acts[..|acts| - 1], p) + [acts[|acts| - 1]]
  }

  /**
   * `LastWhere` finds an action satisfying `p` that is followed by none,
   * and finds nothing exactly when no action satisfies `p`; `After` is the
   * suffix behind that action.
   */
  lemma {:induction false} LastWhereSpec(acts: seq<Action>, p: Action -> bool)
    ensures var r, rest := LastWhere(acts, p), After(acts, p);
      |rest| <= |acts| && rest == acts[|acts| - |rest|..] &&
      (forall i :: 0 <= i < |rest| ==> !p(rest[i])) &&
      (r.None? <==> |rest| == |acts|) &&
      (r.None? ==> forall i :: 0 <= i < |acts| ==> !p(acts[i])) &&
      (r.Some? ==> p(r.value) && r.value == acts[|acts| - |rest| - 1])
    decreases |acts|
  {
    if acts != [] {
      var init, last := acts[..|acts| - 1], acts[|acts| - 1];
      LastWhereSpec(init, p);
      if !p(last) {
        var rest := After(init, p);
        assert After(acts, p) == rest + [last];
        assert acts[|acts| - |rest| - 1..] == init[|init| - |rest|..] + [last];
        forall i | 0 <= i < |acts| && LastWhere(init, p).None?
          ensures !p(acts[i])
        {
          if i < |init| { assert acts[i] == init[i]; }
        }
        if LastWhere(init, p).Some? {
          assert acts[|acts| - |rest| - 2] == init[|init| - |rest| - 1];
        }
      }
    }
  }

  /** How many actions of `acts` satisfy `p`. */
  function CountWhere(acts: seq<Action>, p: Action -> bool): nat
    decreases |acts|
  {
    if acts == [] then 0
    else CountWhere(acts[..|acts| - 1], p) + (if p(acts[|acts| - 1]) then 1 else 0)
  }

  /** The values of the `addFlashMessage` actions of `acts`, in order. */
  function FlashValues(acts: seq<Action>): seq<string>
    decreases |acts|
  {
    if acts == [] then []
    else
      var last := acts[|acts| - 1];
      FlashValues(acts[..|acts| - 1]) + (if last.AddFlashMessage? then [last.value] else [])
  }

  /** The login flag: set by the last login, cleared by the last logout. */
  function ExpectedLoggedIn(s: State, acts: seq<Action>): bool {
    var last := LastWhere(acts, IsSessionChange);
    if last.Some? then last.value.Login? else s.loggedIn
  }

  /** The user record: that of the last login. */
  function ExpectedUser(s: State, acts: seq<Action>): User {
    var last := LastWhere(acts, IsLogin);
    if last.Some? && last.value.Login? then UserOf(last.value.data) else s.user
  }

  /** The search overlay flag: set by the last open, cleared by the last close. */
  function ExpectedSearchOpen(s: State, acts: seq<Action>): bool {
    var last := LastWhere(acts, IsSearchChange);
    if last.Some? then last.value.OpenSearch? else s.isSearchOpen
  }

  /** The chat flag: as the last close left it, flipped by each later toggle. */
  function ExpectedChatOpen(s: State, acts: seq<Action>): bool {
    var base := if LastWhere(acts, IsCloseChat).Some? then false else s.isChatOpen;
    base != Odd(CountWhere(After(acts, IsCloseChat), IsToggleChat))
  }

  /** The unread count: as the last clear left it, plus one for each later increment. */
  function ExpectedUnread(s: State, acts: seq<Action>): int {
    var base := if LastWhere(acts, IsClearUnread).Some? then 0 else s.unreadChatCount;
    base + CountWhere(After(acts, IsClearUnread), IsIncrementUnread)
  }

  /**
   * The state that dispatching `acts` from `s` should reach, described
   * field by field without reference to the reducer; the flash messages
   * gain every flash value of `acts`, in order.
   */
  function Expected(s: State, acts: seq<Action>): State {
    State(
      loggedIn := ExpectedLoggedIn(s, acts),
      flashMessages := s.flashMessages + FlashValues(acts),
      user := ExpectedUser(s, acts),
      isSearchOpen := ExpectedSearchOpen(s, acts),
      isChatOpen := ExpectedChatOpen(s, acts),
      unreadChatCount := ExpectedUnread(s, acts))
  }

  /** Dispatching a concatenation is dispatching its two parts one after the other. */
  lemma {:induction false} ReduceAllAppend(s: State, p: seq<Action>, q: seq<Action>)
    ensures ReduceAll(s, p + q) == ReduceAll(ReduceAll(s, p), q)
    decreases |q|
  {
    if q == [] {
      assert p + q == p;
    } else {
      var q' := q[..|q| - 1];
      assert (p + q)[..|p + q| - 1] == p + q';
      ReduceAllAppend(s, p, q');
    }
  }

  /** Extending `acts` by one action `x` extends each summary by that action. */
  lemma SummariesSnoc(acts: seq<Action>, x: Action, p: Action -> bool, q: Action -> bool)
    ensures LastWhere(acts + [x], p) == if p(x) then Some(x) else LastWhere(acts, p)
    ensures After(acts + [x], p) == if p(x) then [] else After(acts, p) + [x]
    ensures CountWhere(acts + [x], q) == CountWhere(acts, q) + (if q(x) then 1 else 0)
    ensures FlashValues(acts + [x]) == FlashValues(acts) + (if x.AddFlashMessage? then [x.value] else [])
  {
    assert (acts + [x])[..|acts + [x]| - 1] == acts;
  }

  lemma LoggedInSnoc(s: State, p: seq<Action>, x: Action)
    ensures ExpectedLoggedIn(s, p + [x]) == Reduce(Expected(s, p), x).loggedIn
  {
    SummariesSnoc(p, x, IsSessionChange, IsToggleChat);
  }

  lemma FlashSnoc(s: State, p: seq<Action>, x: Action)
    ensures s.flashMessages + FlashValues(p + [x]) == Reduce(Expected(s, p), x).flashMessages
  {
    SummariesSnoc(p, x, IsSessionChange, IsToggleChat);
  }

  lemma UserSnoc(s: State, p: seq<Action>, x: Action)
    ensures ExpectedUser(s, p + [x]) == Reduce(Expected(s, p), x).user
  {
    SummariesSnoc(p, x, IsLogin, IsToggleChat);
  }

  lemma SearchSnoc(s: State, p: seq<Action>, x: Action)
    ensures ExpectedSearchOpen(s, p + [x]) == Reduce(Expected(s, p), x).isSearchOpen
  {
    SummariesSnoc(p, x, IsSearchChange, IsToggleChat);
  }

  /** Whether `n` is odd: an odd number of toggles flips the chat flag. */
  predicate Odd(n: nat) { n % 2 == 1 }

  lemma OddSucc(n: nat)
    ensures Odd(n + 1) == !Odd(n)
  {
  }

  /** Each summary moves by one action `x` as the definitions say, when `x` does not satisfy `p`. */
  lemma SkipSnoc(acts: seq<Action>, x: Action, p: Action -> bool, q: Action -> bool)
    requires !p(x)
    ensures After(acts + [x], p) == After(acts, p) + [x]
    ensures LastWhere(acts + [x], p) == LastWhere(acts, p)
    ensures CountWhere(After(acts, p) + [x], q) == CountWhere(After(acts, p), q) + (if q(x) then 1 else 0)
  {
    SummariesSnoc(acts, x, p, q);
    SummariesSnoc(After(acts, p), x, p, q);
  }

  lemma ChatSnoc(s: State, p: seq<Action>, x: Action)
    ensures ExpectedChatOpen(s, p + [x]) ==
      if x.CloseChat? then false else if x.ToggleChat? then !ExpectedChatOpen(s, p) else ExpectedChatOpen(s, p)
  {
    if x.CloseChat? {
      SummariesSnoc(p, x, IsCloseChat, IsToggleChat);
    } else {
      SkipSnoc(p, x, IsCloseChat, IsToggleChat);
      var n := CountWhere(After(p, IsCloseChat), IsToggleChat);
      OddSucc(n);
    }
  }

  lemma UnreadSnoc(s: State, p: seq<Action>, x: Action)
    ensures ExpectedUnread(s, p + [x]) ==
      if x.ClearUnreadChatCount? then 0
      else if x.IncrementUnreadChatCount? then ExpectedUnread(s, p) + 1
      else ExpectedUnread(s, p)
  {
    if x.ClearUnreadChatCount? {
      SummariesSnoc(p, x, IsClearUnread, IsIncrementUnread);
    } else {
      SkipSnoc(p, x, IsClearUnread, IsIncrementUnread);
    }
  }

  /** One more action moves the closed form exactly as the reducer moves the state. */
  lemma ExpectedSnoc(s: State, p: seq<Action>, x: Action)
    ensures Expected(s, p + [x]) == Reduce(Expected(s, p), x)
  {
    LoggedInSnoc(s, p, x);
    FlashSnoc(s, p, x);
    UserSnoc(s, p, x);
    SearchSnoc(s, p, x);
    ChatSnoc(s, p, x);
    UnreadSnoc(s, p, x);
  }

  /** Dispatching `acts` from `s` reaches exactly the state `Expected` describes. */
  lemma {:induction false} ReduceAllMatchesExpected(s: State, acts: seq<Action>)
    ensures ReduceAll(s, acts) == Expected(s, acts)
    decreases |acts|
  {
    if acts != [] {
      var p, x := acts[..|acts| - 1], acts[|acts| - 1];
      assert acts == p + [x];
      ReduceAllMatchesExpected(s, p);
      ExpectedSnoc(s, p, x);
    }
  }

  /** From a non-negative count, no sequence of actions makes the unread count negative. */
  lemma {:induction false} UnreadCountStaysNonNegative(s: State, acts: seq<Action>)
    requires s.unreadChatCount >= 0
    ensures ReduceAll(s, acts).unreadChatCount >= 0
  {
    ReduceAllMatchesExpected(s, acts);
  }

  /** Flash messages are append-only: every dispatched value is added, in order, after the old ones. */
  lemma {:induction false} FlashMessagesAppendOnly(s: State, acts: seq<Action>)
    ensures ReduceAll(s, acts).flashMessages == s.flashMessages + FlashValues(acts)
    ensures s.flashMessages <= ReduceAll(s, acts).flashMessages
  {
    ReduceAllMatchesExpected(s, acts);
  }

  /** Only a `login` changes the user record; without one the user stays as it was. */
  lemma {:induction false} UserChangesOnlyByLogin(s: State, acts: seq<Action>)
    requires forall i :: 0 <= i < |acts| ==> !acts[i].Login?
    ensures ReduceAll(s, acts).user == s.user
  {
    ReduceAllMatchesExpected(s, acts);
    LastWhereSpec(acts, IsLogin);
  }

  /** Actions of unrecognised type can be dropped from any sequence without changing the outcome. */
  lemma {:induction false} UnknownActionsIgnored(s: State, p: seq<Action>, k: OtherType, q: seq<Action>)
    ensures ReduceAll(s, p + [Other(k)] + q) == ReduceAll(s, p + q)
  {
    ReduceAllAppend(s, p + [Other(k)], q);
    ReduceAllAppend(s, p, [Other(k)]);
    ReduceAllAppend(s, p, q);
    assert [Other(k)][..0] == [];
  }
}
