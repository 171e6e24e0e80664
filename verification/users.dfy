/**
 The "Who to follow" card: the roster minus the current user, cut to its
 first five entries. Adding a friend reports an outcome and changes nothing.
 */
module Users {
  import opened Seqs
  import opened Entities

  /** `slice(0, 5)`: how many suggestions the card shows at most. */
  const SuggestionLimit: nat := 5

  /** The card's state: the suggested users, empty until the roster arrives. */
  datatype SuggestionsView = SuggestionsView(users: seq<User>)

  const InitialView := SuggestionsView([])

  /** The outcome of `POST /connection/{target}`: ok, a non-ok body, or a throw. */
  datatype AddFriendResponse = Added | AddRejected(error: Option<string>) | AddNetworkFailure

  const AddedMessage := "Friend added successfully!"
  const RejectedFallback := "Failed to add friend."
  const NetworkMessage := "An error occurred while adding the friend."

  function Min(a: nat, b: nat): nat
  {
    if a <= b then a else b
  }

  /** The suggestions: a prefix of the self-filtered roster, at most five long. */
  function Suggestions(roster: seq<User>, me: Id): (shown: seq<User>)
    ensures |shown| <= SuggestionLimit
    ensures |shown| == Min(SuggestionLimit, |OthersThan(roster, me)|)
    ensures shown <= OthersThan(roster, me)
    ensures forall u :: u in shown ==> u in roster && u.id != me
    ensures IsSubsequence(shown, roster)
  {
    var others := OthersThan(roster, me);
    PrefixOfSubsequence(others, roster, Min(SuggestionLimit, |others|));
    others[..Min(SuggestionLimit, |others|)]
  }

  /**
   Only the current user is excluded: when the roster does not contain them,
   the card shows the roster's first five users, connected or not.
   */
  lemma OnlySelfExcluded(roster: seq<User>, me: Id)
    requires forall u :: u in roster ==> u.id != me
    ensures Suggestions(roster, me) == roster[..Min(SuggestionLimit, |roster|)]
  {
    FilterKeepsAll(roster, NotMe(me));
  }

  /**
   The mount effect (lines 10-37): the suggestions replace the empty list only
   when the roster arrives; an error body or a throw leaves the list empty.
   */
  function Mount(me: Id, resp: UsersResponse): (v: SuggestionsView)
    ensures forall u :: u in v.users ==> u.id != me
    ensures !resp.Roster? ==> v == InitialView
    ensures resp.Roster? ==> v.users <= OthersThan(resp.users, me)
    ensures resp.Roster? ==> |v.users| == Min(SuggestionLimit, |OthersThan(resp.users, me)|)
  {
    match resp
    case Roster(users) => SuggestionsView(Suggestions(users, me))
    case RosterError => InitialView
    case RosterNetworkFailure => InitialView
  }

  /**
   `handleAddFriend` (lines 40-66): the suggestions stay as they are whatever
   the outcome; the second component is the message handed to `alert`, which
   is never empty because an empty server error falls back to a fixed text.
   */
  function AddFriend(v: SuggestionsView, resp: AddFriendResponse): (r: (SuggestionsView, string))
    ensures r.0 == v
    ensures r.1 != ""
    ensures resp.Added? ==> r.1 == AddedMessage
    ensures resp.AddRejected? ==> r.1 == OrElse(resp.error, RejectedFallback)
    ensures resp.AddRejected? && resp.error.Some? && resp.error.value != "" ==> r.1 == resp.error.value
    ensures resp.AddNetworkFailure? ==> r.1 == NetworkMessage
  {
    match resp
    case Added => (v, AddedMessage)
    case AddRejected(error) => (v, OrElse(error, RejectedFallback))
    case AddNetworkFailure => (v, NetworkMessage)
  }

  /** Worked example: the current user is dropped and the list is cut at five. */
  lemma ExampleSuggestions()
    ensures Suggestions([User("me", "", "", ""), User("a", "", "", ""), User("b", "", "", "")], "me")
         == [User("a", "", "", ""), User("b", "", "", "")]
  {
  }
}
