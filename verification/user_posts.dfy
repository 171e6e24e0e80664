/**
 A user's post feed, fetched five posts at a time. The component's state
 hooks become one record; each completed fetch and each "Load More" click
 is a transition on it. The fetch itself is replaced by its outcome.
 */
module UserPosts {
  import opened Entities

  datatype Post = Post(id: Id, title: string, body: string)

  /** The five `useState` hooks of the component. */
  datatype FeedState = FeedState(posts: seq<Post>, page: int, hasMore: bool, loading: bool, error: Option<string>)

  /** Posts empty, first page, more assumed, loading, no error. */
  const Initial := FeedState([], 1, true, true, None)

  /** The `limit` query parameter of every request. */
  const PageLimit := 5

  const FetchFailedFallback := "Failed to fetch posts."
  const NetworkMessage := "Network error. Please try again later."

  /** The parts of `GET /posts/by/{userId}?page={page}&limit={limit}` that vary. */
  datatype Request = Request(userId: string, page: int, limit: int)

  /**
   The outcome of a posts fetch: an ok body (an array of posts and numeric
   page fields), a non-ok body, or a throw.
   */
  datatype PostsResponse =
    | PostsOk(posts: seq<Post>, currentPage: int, totalPages: int)
    | PostsNotOk(error: Option<string>)
    | PostsNetworkFailure

  /** What the component can be told: a fetch completed, or "Load More" was clicked. */
  datatype Event = Fetched(resp: PostsResponse) | LoadMoreClicked

  /**
   `userId.replace(":", "")`: a string pattern makes `replace` remove only the
   first colon, so a later colon survives.
   */
  function StripFirstColon(s: string): (r: string)
    ensures ':' !in s ==> r == s
    ensures ':' in s ==> |r| == |s| - 1
  {
    if s == [] then []
    else if s[0] == ':' then s[1..]
    else [s[0]] + StripFirstColon(s[1..])
  }

  /** Exactly one colon disappears; every other character keeps its count. */
  lemma {:induction false} StripFirstColonCounts(s: string, c: char)
    ensures multiset(StripFirstColon(s))[c] ==
      if c == ':' && ':' in s then multiset(s)[c] - 1 else multiset(s)[c]
  {
    if s != [] {
      assert s == [s[0]] + s[1..];
      if s[0] != ':' {
        StripFirstColonCounts(s[1..], c);
      }
    }
  }

  /** A colon-free prefix passes through untouched. */
  lemma {:induction false} StripSkipsColonFreePrefix(a: string, t: string)
    requires ':' !in a
    ensures StripFirstColon(a + t) == a + StripFirstColon(t)
  {
    if a == [] {
      assert a + t == t;
    } else {
      var x := a + t;
      assert a[0] in a;
      assert x[0] == a[0] && x[1..] == a[1..] + t;
      StripSkipsColonFreePrefix(a[1..], t);
      assert [a[0]] + (a[1..] + StripFirstColon(t)) == a + StripFirstColon(t);
    }
  }

  /** Inserting a colon after a colon-free prefix and stripping gives the parts back. */
  lemma StripFirstColonSplit(a: string, b: string)
    requires ':' !in a
    ensures StripFirstColon(a + [':'] + b) == a + b
  {
    assert a + [':'] + b == a + ([':'] + b);
    StripSkipsColonFreePrefix(a, [':'] + b);
    assert ([':'] + b)[1..] == b;
  }

  /** The request the effect issues for a page (line 15, called at line 41). */
  function RequestFor(userId: string, page: int): (req: Request)
    ensures req.page == page && req.limit == PageLimit
    ensures forall a, b :: ':' !in a && userId == a + [':'] + b ==> req.userId == a + b
    ensures ':' !in userId ==> req.userId == userId
  {
    forall a, b | ':' !in a && userId == a + [':'] + b {
      StripFirstColonSplit(a, b);
    }
    Request(StripFirstColon(userId), page, PageLimit)
  }

  /**
   `fetchUserPosts` completing (lines 25-37). Success appends the page's posts
   and takes `hasMore` from the response's own page numbers. A non-ok body
   records its error text or the fixed fallback; a throw records the network
   message. Both end loading; neither changes the page.
   */
  function Complete(s: FeedState, resp: PostsResponse): (t: FeedState)
    ensures !t.loading
    ensures t.page == s.page
    ensures s.posts <= t.posts
    ensures resp.PostsOk? ==>
      && t.posts[|s.posts|..] == resp.posts
      && (t.hasMore <==> resp.currentPage < resp.totalPages)
      && t.error == s.error
    ensures !resp.PostsOk? ==>
      && t.posts == s.posts
      && t.hasMore == s.hasMore
      && t.error.Some? && t.error.value != ""
    ensures resp.PostsNotOk? ==> t.error == Some(OrElse(resp.error, FetchFailedFallback))
    ensures resp.PostsNotOk? && resp.error.Some? && resp.error.value != "" ==> t.error == resp.error
    ensures resp.PostsNetworkFailure? ==> t.error == Some(NetworkMessage)
  {
    match resp
    case PostsOk(posts, currentPage, totalPages) =>
      s.(posts := s.posts + posts, hasMore := currentPage < totalPages, loading := false)
    case PostsNotOk(error) =>
      s.(error := Some(OrElse(error, FetchFailedFallback)), loading := false)
    case PostsNetworkFailure =>
      s.(error := Some(NetworkMessage), loading := false)
  }

  /** `loadMorePosts` (lines 44-48): advance one page while more are expected. */
  function LoadMore(s: FeedState): (t: FeedState)
    ensures s.page <= t.page <= s.page + 1
    ensures t.page == s.page + 1 <==> s.hasMore
    ensures t.(page := s.page) == s
  {
    if s.hasMore then s.(page := s.page + 1) else s
  }

  function Step(s: FeedState, ev: Event): FeedState
  {
    match ev
    case Fetched(resp) => Complete(s, resp)
    case LoadMoreClicked => LoadMore(s)
  }

  /** The state after a sequence of events, applied in order. */
  function Run(s: FeedState, evs: seq<Event>): FeedState
    decreases |evs|
  {
    if evs == [] then s else Run(Step(s, evs[0]), evs[1..])
  }

  /** The posts of every successful response among `evs`, in order, duplicates included. */
  function Delivered(evs: seq<Event>): seq<Post>
    decreases |evs|
  {
    if evs == [] then []
    else
      (match evs[0]
       case Fetched(PostsOk(posts, _, _)) => posts
       case _ => [])
      + Delivered(evs[1..])
  }

  function Clicks(evs: seq<Event>): nat
    decreases |evs|
  {
    if evs == [] then 0
    else (if evs[0].LoadMoreClicked? then 1 else 0) + Clicks(evs[1..])
  }

  /** The feed is the plain concatenation of every page received: append-only, no deduplication. */
  lemma {:induction false} RunAccumulates(s: FeedState, evs: seq<Event>)
    ensures Run(s, evs).posts == s.posts + Delivered(evs)
    decreases |evs|
  {
    if evs != [] {
      var t := Step(s, evs[0]);
      RunAccumulates(t, evs[1..]);
      var d := match evs[0] case Fetched(PostsOk(posts, _, _)) => posts case _ => [];
      assert t.posts == s.posts + d;
      assert s.posts + d + Delivered(evs[1..]) == s.posts + (d + Delivered(evs[1..]));
    }
  }

  /** The page never decreases and rises by at most one per click. */
  lemma {:induction false} RunPageBounds(s: FeedState, evs: seq<Event>)
    ensures s.page <= Run(s, evs).page <= s.page + Clicks(evs)
    decreases |evs|
  {
    if evs != [] {
      RunPageBounds(Step(s, evs[0]), evs[1..]);
    }
  }

  /** Once a fetch has completed, loading stays off: "Load More" never sets it again. */
  lemma {:induction false} RunLoadingSettles(s: FeedState, evs: seq<Event>)
    requires !s.loading || exists i :: 0 <= i < |evs| && evs[i].Fetched?
    ensures !Run(s, evs).loading
    decreases |evs|
  {
    if evs != [] {
      var t := Step(s, evs[0]);
      if !t.loading {
        RunLoadingSettles(t, evs[1..]);
      } else {
        var i :| 0 <= i < |evs| && evs[i].Fetched?;
        assert i != 0;
        assert evs[1..][i - 1].Fetched?;
        RunLoadingSettles(t, evs[1..]);
      }
    }
  }

  /** An error, once set, is never cleared: later successes keep it. */
  lemma {:induction false} RunErrorSticks(s: FeedState, evs: seq<Event>)
    requires s.error.Some?
    ensures Run(s, evs).error.Some?
    decreases |evs|
  {
    if evs != [] {
      RunErrorSticks(Step(s, evs[0]), evs[1..]);
    }
  }

  /** With no more pages expected, clicks change nothing. */
  lemma {:induction false} ExhaustedClicksAreNoOps(s: FeedState, evs: seq<Event>)
    requires !s.hasMore
    requires forall i :: 0 <= i < |evs| ==> evs[i].LoadMoreClicked?
    ensures Run(s, evs) == s
    decreases |evs|
  {
    if evs != [] {
      ExhaustedClicksAreNoOps(Step(s, evs[0]), evs[1..]);
    }
  }

  /** Worked example: two pages of a two-page feed, then a click that does nothing. */
  lemma ExampleTwoPages(p1: Post, p2: Post, p3: Post)
    ensures Run(Initial, [Fetched(PostsOk([p1, p2], 1, 2)), LoadMoreClicked,
                          Fetched(PostsOk([p3], 2, 2)), LoadMoreClicked])
         == FeedState([p1, p2, p3], 2, false, false, None)
  {
    var s1 := Complete(Initial, PostsOk([p1, p2], 1, 2));
    assert s1 == FeedState([p1, p2], 1, true, false, None);
    var s2 := LoadMore(s1);
    assert s2 == FeedState([p1, p2], 2, true, false, None);
    var s3 := Complete(s2, PostsOk([p3], 2, 2));
    assert s3 == FeedState([p1, p2, p3], 2, false, false, None);
    assert LoadMore(s3) == s3;
    var evs := [Fetched(PostsOk([p1, p2], 1, 2)), LoadMoreClicked,
                Fetched(PostsOk([p3], 2, 2)), LoadMoreClicked];
    var e1 := evs[1..];
    var e2 := e1[1..];
    var e3 := e2[1..];
    assert e1 == [LoadMoreClicked, Fetched(PostsOk([p3], 2, 2)), LoadMoreClicked];
    assert e2 == [Fetched(PostsOk([p3], 2, 2)), LoadMoreClicked];
    assert e3 == [LoadMoreClicked] && e3[1..] == [];
    assert Run(s3, e3) == s3;
    assert Run(s2, e2) == Run(s3, e3);
    assert Run(s1, e1) == Run(s2, e2);
    assert Run(Initial, evs) == Run(s1, e1);
  }
}
