/**
 Records shared by the components: the user roster returned by `GET /users`,
 the self-exclusion every roster view applies, and JavaScript's
 `value || fallback` on an optional error message.
 */
module Entities {
  import opened Seqs

  datatype Option<T> = None | Some(value: T)

  /** A user's `_id` as the API sends it. */
  type Id = string

  /** A roster entry; `createdDate` is the raw `createddate` field, only ever displayed. */
  datatype User = User(id: Id, name: string, email: string, createdDate: string)

  /**
   The outcome of `GET /users` as the views see it: a body carrying the
   roster, a body whose `error` field is set, or a fetch or parse that threw.
   */
  datatype UsersResponse = Roster(users: seq<User>) | RosterError | RosterNetworkFailure

  /** The test `user._id !== currentUser._id`. */
  function NotMe(me: Id): User -> bool
  {
    (u: User) => u.id != me
  }

  /** The roster without the current user, in roster order. */
  function OthersThan(roster: seq<User>, me: Id): (others: seq<User>)
    ensures forall u :: u in others <==> u in roster && u.id != me
    ensures IsSubsequence(others, roster)
  {
    FilterIsSubsequence(roster, NotMe(me));
    Filter(roster, NotMe(me))
  }

  /** Self-exclusion drops every entry of the current user and keeps every other entry as often as it occurs. */
  lemma OthersThanCount(roster: seq<User>, me: Id, u: User)
    ensures multiset(OthersThan(roster, me))[u] == if u.id == me then 0 else multiset(roster)[u]
  {
    FilterCount(roster, NotMe(me), u);
  }

  /**
   JavaScript's `message || fallback` where `message` is an optional string:
   an absent or empty message is falsy and yields the fallback.
   */
  function OrElse(message: Option<string>, fallback: string): (shown: string)
    ensures shown == fallback || message == Some(shown)
    ensures shown != "" <==> fallback != "" || (message.Some? && message.value != "")
    ensures message.Some? && message.value != "" ==> shown == message.value
    ensures !(message.Some? && message.value != "") ==> shown == fallback
  {
    if message.Some? && message.value != "" then message.value else fallback
  }
}
