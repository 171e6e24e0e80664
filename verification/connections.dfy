/**
 The connections page: it reads the current user's connection records,
 keeps those touching the current user, maps each to its other endpoint,
 and then shows the roster minus the current user and every connected id.
 (The page is headed "Your Connections", yet what it lists are the users
 NOT connected to the current user; this model follows what is computed.)
 */
module Connections {
  import opened Seqs
  import opened Entities

  /** A connection record whose two endpoint user objects are present. */
  datatype Edge = Edge(user1: Id, user2: Id)

  /** A connection record as received: either endpoint object may be missing. */
  datatype RawEdge = RawEdge(user1: Option<Id>, user2: Option<Id>)

  /** The outcome of `GET /connections/{id}`: a body, a non-ok status, or a throw. */
  datatype EdgesResponse = EdgesOk(records: seq<RawEdge>) | EdgesNotOk | EdgesNetworkFailure

  /** The view's state: the users shown, the connected ids, and the loading flag. */
  datatype ConnectionsView = ConnectionsView(users: seq<User>, connections: seq<Id>, loading: bool)

  /** The state before the mount effect has run. */
  const InitialView := ConnectionsView([], [], true)

  predicate Touches(e: Edge, me: Id)
  {
    e.user1 == me || e.user2 == me
  }

  function TouchesMe(me: Id): Edge -> bool
  {
    (e: Edge) => Touches(e, me)
  }

  /** The endpoint a kept record contributes: `user2` when `user1` is me, `user1` otherwise. */
  function Other(e: Edge, me: Id): Id
  {
    if e.user1 == me then e.user2 else e.user1
  }

  /** `e` joins `me` and `id`, in either orientation: edges are undirected. */
  predicate Links(e: Edge, me: Id, id: Id)
  {
    (e.user1 == me && e.user2 == id) || (e.user2 == me && e.user1 == id)
  }

  /** `id` is a neighbour of `me` in the undirected graph the records describe. */
  predicate Adjacent(edges: seq<Edge>, me: Id, id: Id)
  {
    exists e :: e in edges && Links(e, me, id)
  }

  /** The records that name the current user at either end, in their original order. */
  function TouchingEdges(edges: seq<Edge>, me: Id): (kept: seq<Edge>)
    ensures forall e :: e in kept <==> e in edges && Touches(e, me)
    ensures IsSubsequence(kept, edges)
  {
    FilterIsSubsequence(edges, TouchesMe(me));
    Filter(edges, TouchesMe(me))
  }

  /** Touching records are kept with their multiplicity; the rest never appear. */
  lemma TouchingEdgesCount(edges: seq<Edge>, me: Id, e: Edge)
    ensures multiset(TouchingEdges(edges, me))[e] == if Touches(e, me) then multiset(edges)[e] else 0
  {
    FilterCount(edges, TouchesMe(me), e);
  }

  /** Appending one record appends it to the kept records exactly when it touches me. */
  lemma TouchingEdgesAppend(edges: seq<Edge>, e: Edge, me: Id)
    ensures TouchingEdges(edges + [e], me) == TouchingEdges(edges, me) + if Touches(e, me) then [e] else []
  {
    FilterConcat(edges, [e], TouchesMe(me));
    FilterSingleton(e, TouchesMe(me));
  }

  /** The `for ... of` loop that pushes every record touching the current user. */
  method KeepTouching(data: seq<Edge>, me: Id) returns (filteredData: seq<Edge>)
    ensures filteredData == TouchingEdges(data, me)
  {
    filteredData := [];
    var i := 0;
    while i < |data|
      invariant 0 <= i <= |data|
      invariant filteredData == TouchingEdges(data[..i], me)
    {
      var connection := data[i];
      TouchingEdgesAppend(data[..i], connection, me);
      assert data[..i + 1] == data[..i] + [connection];
      if connection.user1 == me || connection.user2 == me {
        filteredData := filteredData + [connection];
      }
      i := i + 1;
    }
    assert data[..i] == data;
  }

  /** The `map` from each kept record to its other endpoint: one id per record. */
  function ConnectedIds(kept: seq<Edge>, me: Id): (ids: seq<Id>)
    ensures |ids| == |kept|
    ensures forall i :: 0 <= i < |kept| ==> ids[i] == kept[i].user1 || ids[i] == kept[i].user2
    ensures forall i :: 0 <= i < |kept| && Touches(kept[i], me) ==> Links(kept[i], me, ids[i])
    ensures forall i :: 0 <= i < |kept| && Touches(kept[i], me) ==>
      (ids[i] == me <==> kept[i].user1 == kept[i].user2)
  {
    seq(|kept|, i requires 0 <= i < |kept| => Other(kept[i], me))
  }

  lemma ConnectedIdsAppend(kept: seq<Edge>, e: Edge, me: Id)
    ensures ConnectedIds(kept + [e], me) == ConnectedIds(kept, me) + [Other(e, me)]
  {
    var l := ConnectedIds(kept + [e], me);
    var r := ConnectedIds(kept, me) + [Other(e, me)];
    assert |l| == |r|;
    forall i | 0 <= i < |l|
      ensures l[i] == r[i]
    {
      if i < |kept| {
        assert (kept + [e])[i] == kept[i];
      }
    }
  }

  /** Lines 30-42: the ids the current user is connected to, one per touching record. */
  function ResolveConnectionIds(edges: seq<Edge>, me: Id): (ids: seq<Id>)
    ensures |ids| == |TouchingEdges(edges, me)|
    ensures forall id :: id in ids <==> Adjacent(edges, me, id)
  {
    ResolvedAreNeighbours(edges, me);
    ConnectedIds(TouchingEdges(edges, me), me)
  }

  lemma ResolvedAreNeighbours(edges: seq<Edge>, me: Id)
    ensures forall id :: id in ConnectedIds(TouchingEdges(edges, me), me) <==> Adjacent(edges, me, id)
  {
    var kept := TouchingEdges(edges, me);
    var ids := ConnectedIds(kept, me);
    forall id
      ensures id in ids <==> Adjacent(edges, me, id)
    {
      if id in ids {
        var i :| 0 <= i < |ids| && ids[i] == id;
        assert kept[i] in kept;
        assert Links(kept[i], me, id);
      }
      if Adjacent(edges, me, id) {
        var e :| e in edges && Links(e, me, id);
        assert e in kept;
        var i :| 0 <= i < |kept| && kept[i] == e;
        assert Links(e, me, ids[i]);
        assert ids[i] == id;
      }
    }
  }

  /**
   One more record adds exactly one id when it touches the current user and
   none otherwise; earlier ids are untouched and nothing is deduplicated.
   */
  lemma ResolveAppend(edges: seq<Edge>, e: Edge, me: Id)
    ensures ResolveConnectionIds(edges + [e], me)
         == ResolveConnectionIds(edges, me) + if Touches(e, me) then [Other(e, me)] else []
  {
    TouchingEdgesAppend(edges, e, me);
    if Touches(e, me) {
      ConnectedIdsAppend(TouchingEdges(edges, me), e, me);
    }
  }

  /** A self-loop is the only way the current user's own id gets into the list. */
  lemma SelfLoopYieldsOwnId(edges: seq<Edge>, me: Id)
    ensures me in ResolveConnectionIds(edges, me) <==> Edge(me, me) in edges
  {
  }

  predicate WellFormed(r: RawEdge)
  {
    r.user1.Some? && r.user2.Some?
  }

  predicate AllWellFormed(records: seq<RawEdge>)
  {
    forall r :: r in records ==> WellFormed(r)
  }

  function ToEdge(r: RawEdge): Edge
    requires WellFormed(r)
  {
    Edge(r.user1.value, r.user2.value)
  }

  function Edges(records: seq<RawEdge>): (edges: seq<Edge>)
    requires AllWellFormed(records)
    ensures |edges| == |records|
  {
    seq(|records|, i requires 0 <= i < |records| => ToEdge(records[i]))
  }

  /**
   `fetchConnections` (lines 13-52). Every record has both endpoints read, by
   the filter or by the map, so a record lacking one throws a TypeError that
   the `catch` turns into an empty list, as it does a non-ok status.
   */
  function FetchConnections(resp: EdgesResponse, me: Id): (ids: seq<Id>)
    ensures !resp.EdgesOk? ==> ids == []
    ensures resp.EdgesOk? && !AllWellFormed(resp.records) ==> ids == []
    ensures resp.EdgesOk? && AllWellFormed(resp.records) ==> ids == ResolveConnectionIds(Edges(resp.records), me)
    ensures forall id :: id in ids <==>
      resp.EdgesOk? && AllWellFormed(resp.records) && Adjacent(Edges(resp.records), me, id)
  {
    match resp
    case EdgesOk(records) =>
      if AllWellFormed(records) then ResolveConnectionIds(Edges(records), me) else []
    case EdgesNotOk => []
    case EdgesNetworkFailure => []
  }

  function NotMeNorConnected(me: Id, connected: seq<Id>): User -> bool
  {
    (u: User) => u.id != me && u.id !in connected
  }

  /** Lines 76-80: the roster without the current user and without every connected id. */
  function Displayed(roster: seq<User>, me: Id, connected: seq<Id>): (shown: seq<User>)
    ensures forall u :: u in shown <==> u in roster && u.id != me && u.id !in connected
    ensures IsSubsequence(shown, roster)
  {
    FilterIsSubsequence(roster, NotMeNorConnected(me, connected));
    Filter(roster, NotMeNorConnected(me, connected))
  }

  /** A roster entry that passes is shown as often as the roster lists it; the others never. */
  lemma DisplayedCount(roster: seq<User>, me: Id, connected: seq<Id>, u: User)
    ensures multiset(Displayed(roster, me, connected))[u] ==
      if u.id != me && u.id !in connected then multiset(roster)[u] else 0
  {
    FilterCount(roster, NotMeNorConnected(me, connected), u);
  }

  /** The filter tests membership only: lists with the same members filter alike. */
  lemma DisplayedDependsOnMembersOnly(roster: seq<User>, me: Id, c1: seq<Id>, c2: seq<Id>)
    requires forall id :: id in c1 <==> id in c2
    ensures Displayed(roster, me, c1) == Displayed(roster, me, c2)
  {
    FilterCongruent(roster, NotMeNorConnected(me, c1), NotMeNorConnected(me, c2));
  }

  /** With no connected ids the filter is exactly the self-exclusion. */
  lemma DisplayedWithoutConnections(roster: seq<User>, me: Id)
    ensures Displayed(roster, me, []) == OthersThan(roster, me)
  {
    FilterCongruent(roster, NotMeNorConnected(me, []), NotMe(me));
  }

  /** A failed connections fetch leaves only the current user excluded. */
  lemma FailedFetchExcludesOnlySelf(resp: EdgesResponse, roster: seq<User>, me: Id)
    requires !resp.EdgesOk? || !AllWellFormed(resp.records)
    ensures Displayed(roster, me, FetchConnections(resp, me)) == OthersThan(roster, me)
  {
    DisplayedWithoutConnections(roster, me);
  }

  /**
   The mount effect (lines 55-95): the connected ids are stored first; the
   users are replaced only when the roster arrives; loading ends either way.
   */
  function Mount(me: Id, edgesResp: EdgesResponse, usersResp: UsersResponse): (v: ConnectionsView)
    ensures !v.loading
    ensures v.connections == FetchConnections(edgesResp, me)
    ensures forall id :: id in v.connections <==>
      edgesResp.EdgesOk? && AllWellFormed(edgesResp.records) && Adjacent(Edges(edgesResp.records), me, id)
    ensures forall u :: u in v.users ==> u.id != me && u.id !in v.connections
    ensures usersResp.Roster? ==>
      IsSubsequence(v.users, usersResp.users)
      && forall u :: u in usersResp.users && u.id != me && u.id !in v.connections ==> u in v.users
    ensures !usersResp.Roster? ==> v.users == InitialView.users
    ensures usersResp.Roster? ==> v.users == Displayed(usersResp.users, me, v.connections)
  {
    var connectionsIds := FetchConnections(edgesResp, me);
    match usersResp
    case Roster(users) => ConnectionsView(Displayed(users, me, connectionsIds), connectionsIds, false)
    case RosterError => InitialView.(connections := connectionsIds, loading := false)
    case RosterNetworkFailure => InitialView.(connections := connectionsIds, loading := false)
  }

  /** Worked example: two records name A, one does not; A sees B and C. */
  lemma ExampleResolve()
    ensures ResolveConnectionIds([Edge("A", "B"), Edge("C", "A"), Edge("X", "Y")], "A") == ["B", "C"]
  {
  }
}
