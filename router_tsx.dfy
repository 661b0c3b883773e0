/**
 * src/router.tsx: the route table of the app under "/": an index route whose
 * loader clears the search, the `search` route with the same loader as in
 * src/router.ts, and a catch-all that redirects to "/". A path reaches the
 * model as its segments below "/", already split and decoded.
 */
module RouterTsx {
  import opened Wrappers
  import opened Types
  import VideoSlice
  import YouTube
  import Router

  /** Which child route a path selects. */
  datatype Route = Index | Search | CatchAll

  /** What the navigation ends in: a loader's data, or a redirect. */
  datatype Outcome = Loaded(data: Router.LoaderData) | Redirect(to: string, replace: bool)

  /** ASCII letters compared without case, as route paths match by default. */
  function Lower(c: char): char {
    if 'A' <= c <= 'Z' then (c as int + 32) as char else c
  }

  /** The segment is "search" up to ASCII case. */
  predicate IsSearchSegment(s: string) {
    |s| == 6 && forall k :: 0 <= k < 6 ==> Lower(s[k]) == "search"[k]
  }

  /** The child route for the segments: none is the index, one "search" segment the search, anything else the catch-all. */
  function RouteOf(segments: seq<string>): (r: Route)
    ensures r == Index <==> segments == []
    ensures r == Search <==> |segments| == 1 && IsSearchSegment(segments[0])
  {
    if segments == [] then Index
    else if |segments| == 1 && IsSearchSegment(segments[0]) then Search
    else CatchAll
  }

  /** "/search" and "/Search" both reach the search loader; "/search/x" and "/videos" are redirected. */
  lemma RouteExamples()
    ensures RouteOf(["search"]) == Search
    ensures RouteOf(["Search"]) == Search
    ensures RouteOf(["search", "x"]) == CatchAll
    ensures RouteOf(["videos"]) == CatchAll
  {
    assert IsSearchSegment("search");
    assert Lower('S') == 's';
    assert IsSearchSegment("Search");
    assert !IsSearchSegment("videos") by {
      assert Lower("videos"[0]) != "search"[0];
    }
  }

  /**
   * A navigation below "/": the route's loader runs, with the store, the URL
   * parameters and the request outcomes as in Router.SearchLoader; the
   * catch-all renders `<Navigate to="/" replace />` and touches no state.
   */
  method Navigate(store: VideoSlice.SearchState, segments: seq<string>,
                  query: Option<string>, videoId: Option<string>,
                  search: Router.SearchOutcome, lookup: YouTube.Fetched)
    returns (outcome: Outcome)
    modifies store
    ensures RouteOf(segments) == Index ==>
      && outcome == Loaded(Router.LoaderData(None, None))
      && store.videos == [] && store.selectedVideo == None && store.lastQuery == None
      && store.error == None && !store.loading
    ensures RouteOf(segments) == Search ==>
      && outcome == Loaded(Router.LoaderData(query, videoId))
      && Router.SearchLoaded(store, query, videoId, search, lookup)
    ensures RouteOf(segments) == CatchAll ==>
      && outcome == Redirect("/", true)
      && store.videos == old(store.videos) && store.selectedVideo == old(store.selectedVideo)
      && store.lastQuery == old(store.lastQuery) && store.error == old(store.error)
      && store.loading == old(store.loading)
    ensures store.hideSpoilers == old(store.hideSpoilers)
    ensures old(store.Valid()) ==> store.Valid()
  {
    match RouteOf(segments)
    case Index =>
      var data := Router.RootLoader(store);
      outcome := Loaded(data);
    case Search =>
      var data := Router.SearchLoader(store, query, videoId, search, lookup);
      outcome := Loaded(data);
    case CatchAll =>
      outcome := Redirect("/", true);
  }
}
