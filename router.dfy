/**
 * src/router.ts: the loaders of the root route and its `search` child, and
 * the two `shouldRevalidate` rules. A URL reaches the model as what
 * `URLSearchParams.get` gives for it (None for a missing parameter) and, for
 * the root rule, as its pathname. The global store is a
 * `VideoSlice.SearchState`; what the `searchVideos` request and the video
 * lookup give back are inputs.
 */
module Router {
  import opened Wrappers
  import opened Types
  import VideoSlice
  import YouTube

  /** The object a loader returns. */
  datatype LoaderData = LoaderData(query: Option<string>, videoId: Option<string>)

  /** How the `searchVideos` thunk settled: its payload, or the message of what it threw. */
  datatype SearchOutcome = Fulfilled(videos: seq<Video>) | Rejected(message: Option<string>)

  /** A string parameter that JavaScript treats as true: present and not empty. */
  predicate Truthy(p: Option<string>) {
    p.Some? && p.value != ""
  }

  /** `query && query !== lastQuery`: a non-empty query other than the last searched one. */
  predicate ShouldSearch(query: Option<string>, lastQuery: Option<string>) {
    Truthy(query) && query != lastQuery
  }

  /** `videoId && !selectedVideo`: a non-empty video id while nothing was selected. */
  predicate ShouldFetchVideo(videoId: Option<string>, selectedBefore: Option<Video>) {
    Truthy(videoId) && selectedBefore.None?
  }

  /** A query is searched again only when it differs from the last one searched. */
  lemma SearchDecision(q: string, lastQuery: Option<string>)
    ensures ShouldSearch(Some(q), lastQuery) <==> q != "" && lastQuery != Some(q)
    ensures !ShouldSearch(None, lastQuery) && !ShouldSearch(Some(""), lastQuery)
    ensures !ShouldSearch(Some(q), Some(q))
  {
  }

  /** The child rule: revalidate when the `q` parameter changes, a missing one included. */
  predicate ShouldRevalidateSearch(currentQuery: Option<string>, nextQuery: Option<string>) {
    currentQuery != nextQuery
  }

  /**
   * The child rule is symmetric, holds for a query appearing or disappearing,
   * and skips only navigations after which the loader would reach the same
   * search decision for any last query.
   */
  lemma RevalidateSearchMeaning(currentQuery: Option<string>, nextQuery: Option<string>, lastQuery: Option<string>)
    ensures ShouldRevalidateSearch(currentQuery, nextQuery) == ShouldRevalidateSearch(nextQuery, currentQuery)
    ensures currentQuery.None? != nextQuery.None? ==> ShouldRevalidateSearch(currentQuery, nextQuery)
    ensures !ShouldRevalidateSearch(currentQuery, nextQuery) ==>
      ShouldSearch(currentQuery, lastQuery) == ShouldSearch(nextQuery, lastQuery)
  {
  }

  /** The root rule: revalidate only when navigating from somewhere else to "/". */
  function ShouldRevalidateRoot(currentPath: string, nextPath: string): (b: bool)
    ensures b ==> nextPath == "/" && currentPath != nextPath
    ensures currentPath == "/" ==> !b
  {
    currentPath != "/" && nextPath == "/"
  }

  /** The root loader: clears the search and returns no query and no video id. */
  method RootLoader(store: VideoSlice.SearchState) returns (data: LoaderData)
    modifies store
    ensures data == LoaderData(None, None)
    ensures store.videos == [] && store.selectedVideo == None && store.lastQuery == None
    ensures store.error == None && !store.loading
    ensures store.hideSpoilers == old(store.hideSpoilers)
    ensures store.Valid()
  {
    store.ClearVideos();
    data := LoaderData(None, None);
  }

  /**
   * What the `search` loader does to the store, against the store before it.
   * The store is read once before anything is dispatched: the search runs
   * when the query is non-empty and not the last one searched, and its
   * fulfilment or rejection updates the store as the reducers do; otherwise
   * the search state stays. The permalinked video becomes the selection when
   * its id is non-empty, nothing was selected at that moment and the lookup
   * finds it; otherwise the selection stays. The spoiler flag is kept.
   */
  twostate predicate SearchLoaded(store: VideoSlice.SearchState, query: Option<string>, videoId: Option<string>,
                                  search: SearchOutcome, lookup: YouTube.Fetched)
    reads store
  {
    && store.hideSpoilers == old(store.hideSpoilers)
    && (!ShouldSearch(query, old(store.lastQuery)) ==>
      && store.videos == old(store.videos) && store.lastQuery == old(store.lastQuery)
      && store.loading == old(store.loading) && store.error == old(store.error))
    && (ShouldSearch(query, old(store.lastQuery)) && search.Fulfilled? ==>
      && store.videos == VideoSlice.WithTitles(search.videos, store.hideSpoilers)
      && store.lastQuery == query && !store.loading && store.error == None)
    && (ShouldSearch(query, old(store.lastQuery)) && search.Rejected? ==>
      && store.videos == old(store.videos) && store.lastQuery == old(store.lastQuery)
      && !store.loading && store.error == Some(VideoSlice.ErrorMessage(search.message)))
    && store.selectedVideo ==
      if ShouldFetchVideo(videoId, old(store.selectedVideo)) && YouTube.FetchVideoById(lookup).Some?
      then YouTube.FetchVideoById(lookup) else old(store.selectedVideo)
  }

  /**
   * The `search` loader: it changes the store as SearchLoaded says, swallows
   * failures, keeps the store's invariant, and returns the parameters as read.
   */
  method SearchLoader(store: VideoSlice.SearchState, query: Option<string>, videoId: Option<string>,
                      search: SearchOutcome, lookup: YouTube.Fetched)
    returns (data: LoaderData)
    modifies store
    ensures data == LoaderData(query, videoId)
    ensures SearchLoaded(store, query, videoId, search, lookup)
    ensures old(store.Valid()) ==> store.Valid()
  {
    var lastQuery, selectedBefore := store.lastQuery, store.selectedVideo;
    if ShouldSearch(query, lastQuery) {
      store.SearchPending();
      match search
      case Fulfilled(videos) => store.SearchFulfilled(videos, query.value);
      case Rejected(message) => store.SearchRejected(message);
    }
    if ShouldFetchVideo(videoId, selectedBefore) {
      var video := YouTube.FetchVideoById(lookup);
      if video.Some? {
        store.SetSelectedVideo(video);
      }
    }
    data := LoaderData(query, videoId);
  }
}
