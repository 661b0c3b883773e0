/**
 * src/store/videoSlice.ts: the `videos` slice of the Redux store. The slice
 * state is an object whose reducers assign its fields in place; here it is a
 * class whose methods are the reducers. The `searchVideos` thunk itself
 * (requests and the reply mapping) is outside the model: its pending,
 * fulfilled and rejected actions arrive with their payloads.
 */
module VideoSlice {
  import opened Wrappers
  import opened Types
  import Spoiler

  /** The title a video shows: the sanitised original while spoilers are hidden, the original otherwise. */
  function ShownTitle(v: Video, hideSpoilers: bool): string {
    if hideSpoilers then Spoiler.Sanitize(v.originalTitle) else v.originalTitle
  }

  /** `{ ...video, title: … }`: the video with its title set for the flag and nothing else changed. */
  function Retitled(v: Video, hideSpoilers: bool): (r: Video)
    ensures r.title == ShownTitle(v, hideSpoilers)
    ensures r.(title := v.title) == v
  {
    v.(title := ShownTitle(v, hideSpoilers))
  }

  /** Every title is the one the flag calls for. */
  predicate TitlesFollow(videos: seq<Video>, hideSpoilers: bool) {
    forall i :: 0 <= i < |videos| ==> videos[i].title == ShownTitle(videos[i], hideSpoilers)
  }

  /** `videos.map(…)`: the same videos in the same order, each retitled for the flag. */
  function WithTitles(videos: seq<Video>, hideSpoilers: bool): (r: seq<Video>)
    ensures |r| == |videos|
    ensures forall i :: 0 <= i < |r| ==> r[i] == Retitled(videos[i], hideSpoilers)
    ensures TitlesFollow(r, hideSpoilers)
  {
    seq(|videos|, i requires 0 <= i < |videos| => Retitled(videos[i], hideSpoilers))
  }

  /** Retitling depends on the original titles only, so the last retitling wins. */
  lemma WithTitlesTwice(videos: seq<Video>, first: bool, second: bool)
    ensures WithTitles(WithTitles(videos, first), second) == WithTitles(videos, second)
  {
    var once, twice := WithTitles(videos, first), WithTitles(WithTitles(videos, first), second);
    forall i | 0 <= i < |videos|
      ensures twice[i] == WithTitles(videos, second)[i]
    {
      assert once[i].originalTitle == videos[i].originalTitle;
    }
  }

  /** Retitling changes nothing exactly when the titles already follow the flag. */
  lemma WithTitlesFixed(videos: seq<Video>, hideSpoilers: bool)
    ensures WithTitles(videos, hideSpoilers) == videos <==> TitlesFollow(videos, hideSpoilers)
  {
    if TitlesFollow(videos, hideSpoilers) {
      forall i | 0 <= i < |videos|
        ensures WithTitles(videos, hideSpoilers)[i] == videos[i]
      {
      }
    }
  }

  /** The message a rejected search leaves: its own, or a generic one when it has none or it is empty. */
  function ErrorMessage(message: Option<string>): string {
    OrIfEmpty(message, "An error occurred")
  }

  /** The slice state, `SearchState` of src/types.ts. */
  class SearchState {
    var videos: seq<Video>
    var selectedVideo: Option<Video>
    var loading: bool
    var error: Option<string>
    var hideSpoilers: bool
    var lastQuery: Option<string>

    /** The invariant every reducer keeps: the list titles follow the spoiler flag. */
    predicate Valid()
      reads this
    {
      TitlesFollow(videos, hideSpoilers)
    }

    /** The initial state: nothing loaded, spoilers hidden. */
    constructor ()
      ensures videos == [] && selectedVideo == None && loading == false
      ensures error == None && hideSpoilers == true && lastQuery == None
      ensures Valid()
    {
      videos := [];
      selectedVideo := None;
      loading := false;
      error := None;
      hideSpoilers := true;
      lastQuery := None;
    }

    /** setSelectedVideo: the payload becomes the selection, the rest stays. */
    method SetSelectedVideo(payload: Option<Video>)
      modifies this
      ensures selectedVideo == payload
      ensures videos == old(videos) && loading == old(loading) && error == old(error)
      ensures hideSpoilers == old(hideSpoilers) && lastQuery == old(lastQuery)
      ensures Valid() <==> old(Valid())
    {
      selectedVideo := payload;
    }

    /**
     * toggleSpoilers: the flag flips, and every list title and the selected
     * video's title are recomputed for the new flag.
     */
    method ToggleSpoilers()
      modifies this
      ensures hideSpoilers == !old(hideSpoilers)
      ensures videos == WithTitles(old(videos), hideSpoilers)
      ensures selectedVideo == (match old(selectedVideo)
                                case None => None
                                case Some(v) => Some(Retitled(v, hideSpoilers)))
      ensures loading == old(loading) && error == old(error) && lastQuery == old(lastQuery)
      ensures Valid()
    {
      hideSpoilers := !hideSpoilers;
      videos := WithTitles(videos, hideSpoilers);
      if selectedVideo.Some? {
        selectedVideo := Some(Retitled(selectedVideo.value, hideSpoilers));
      }
    }

    /** clearVideos: back to an empty search, the spoiler flag kept. */
    method ClearVideos()
      modifies this
      ensures videos == [] && selectedVideo == None && lastQuery == None
      ensures error == None && loading == false
      ensures hideSpoilers == old(hideSpoilers)
      ensures Valid()
    {
      videos := [];
      selectedVideo := None;
      lastQuery := None;
      error := None;
      loading := false;
    }

    /** searchVideos.pending: loading, with the previous error cleared. */
    method SearchPending()
      modifies this
      ensures loading == true && error == None
      ensures videos == old(videos) && selectedVideo == old(selectedVideo)
      ensures hideSpoilers == old(hideSpoilers) && lastQuery == old(lastQuery)
      ensures Valid() <==> old(Valid())
    {
      loading := true;
      error := None;
    }

    /**
     * searchVideos.fulfilled: the payload becomes the list, titled for the
     * current flag, and the search term becomes the last query. The error is
     * left as it was.
     */
    method SearchFulfilled(payload: seq<Video>, searchTerm: string)
      modifies this
      ensures loading == false
      ensures videos == WithTitles(payload, hideSpoilers)
      ensures lastQuery == Some(searchTerm)
      ensures hideSpoilers == old(hideSpoilers) && selectedVideo == old(selectedVideo) && error == old(error)
      ensures Valid()
    {
      loading := false;
      videos := WithTitles(payload, hideSpoilers);
      lastQuery := Some(searchTerm);
    }

    /** searchVideos.rejected: not loading, and the error message set. */
    method SearchRejected(message: Option<string>)
      modifies this
      ensures loading == false && error == Some(ErrorMessage(message))
      ensures videos == old(videos) && selectedVideo == old(selectedVideo)
      ensures hideSpoilers == old(hideSpoilers) && lastQuery == old(lastQuery)
      ensures Valid() <==> old(Valid())
    {
      loading := false;
      error := Some(ErrorMessage(message));
    }
  }

  /** Toggling twice from a state whose titles follow its flag gives back the same list and flag. */
  lemma ToggleTwiceRestores(videos: seq<Video>, hideSpoilers: bool)
    requires TitlesFollow(videos, hideSpoilers)
    ensures WithTitles(WithTitles(videos, !hideSpoilers), hideSpoilers) == videos
  {
    WithTitlesTwice(videos, !hideSpoilers, hideSpoilers);
    WithTitlesFixed(videos, hideSpoilers);
  }
}
