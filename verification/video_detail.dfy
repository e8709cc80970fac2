/** The video page: the related-videos selection, the like/dislike/subscribe
    toggles, the reset on an id change, the single-flight video fetch and the
    choice between spinner, error screen and content. */
module VideoDetail {
  import opened Wrappers
  import opened Seqs
  import opened Url
  import opened Entities

  const RELATED_LIMIT := 10
  const NOT_FOUND := "Video not found"

  /** The catalog entries whose id differs from `id`. */
  function OtherThan(id: string): Video -> bool {
    (v: Video) => v.id != id
  }

  /** The related list: the first ten catalog entries other than the current video. */
  function RelatedVideos(catalog: seq<Video>, id: string): (r: seq<Video>)
    ensures |r| <= RELATED_LIMIT
  {
    var others := Filter(catalog, OtherThan(id));
    if |others| <= RELATED_LIMIT then others else others[..RELATED_LIMIT]
  }

  /** The related list is the first ten of the other videos in catalog order
      (all of them when there are fewer), so it keeps the catalog's order,
      never holds the current video, and omits no other video unless full. */
  lemma RelatedVideosSpec(catalog: seq<Video>, id: string)
    ensures RelatedVideos(catalog, id) <= Filter(catalog, OtherThan(id))
    ensures |RelatedVideos(catalog, id)|
            == if |Filter(catalog, OtherThan(id))| < RELATED_LIMIT then |Filter(catalog, OtherThan(id))| else RELATED_LIMIT
    ensures IsSubsequence(RelatedVideos(catalog, id), catalog)
    ensures forall v :: v in RelatedVideos(catalog, id) ==> v in catalog && v.id != id
    ensures |RelatedVideos(catalog, id)| == RELATED_LIMIT
            || forall v :: v in catalog && v.id != id ==> v in RelatedVideos(catalog, id)
  {
    var others := Filter(catalog, OtherThan(id));
    FilterIsSubsequence(catalog, OtherThan(id));
    if |others| > RELATED_LIMIT {
      PrefixIsSubsequence(others, RELATED_LIMIT);
      SubsequenceTransitive(others[..RELATED_LIMIT], others, catalog);
      assert forall v :: v in others[..RELATED_LIMIT] ==> v in others;
    }
  }

  /** What the page renders. */
  datatype View = Spinner | ErrorScreen(message: string) | Content(video: Video)

  /** The render decision: loading wins; then an error or a missing video shows
      the error screen with the error text or "Video not found"; otherwise the content. */
  function Render(loading: bool, error: Option<string>, video: Option<Video>): View {
    if loading then Spinner
    else if Truthy(error) || video.None? then ErrorScreen(if Truthy(error) then error.value else NOT_FOUND)
    else Content(video.value)
  }

  /** The content is shown only for a loaded video with no error, and an error
      screen never shows an empty message. */
  lemma RenderSpec(loading: bool, error: Option<string>, video: Option<Video>)
    ensures Render(loading, error, video).Spinner? <==> loading
    ensures Render(loading, error, video).Content? <==> !loading && !Truthy(error) && video.Some?
    ensures Render(loading, error, video).Content? ==> video == Some(Render(loading, error, video).video)
    ensures Render(loading, error, video).ErrorScreen? ==> Render(loading, error, video).message != ""
    ensures !loading && Truthy(error) ==> Render(loading, error, video) == ErrorScreen(error.value)
    ensures !loading && !Truthy(error) && video.None? ==> Render(loading, error, video) == ErrorScreen(NOT_FOUND)
  {
  }

  /** The state of one `VideoPage` component. */
  class VideoPage {
    var id: string
    var video: Option<Video>
    var relatedVideos: seq<Video>
    var loading: bool
    var error: Option<string>
    var liked: bool
    var disliked: bool
    var subscribed: bool
    /** The `isRequesting` ref: a video fetch is outstanding. */
    var isRequesting: bool
    /** The number of video fetches issued and not yet settled. */
    ghost var pending: nat

    /** Like and dislike are never both on; at most one video fetch is
        outstanding, and while it is the page is loading. */
    ghost predicate Valid()
      reads this
    {
      && !(liked && disliked)
      && pending <= 1 && (isRequesting <==> pending == 1)
      && (isRequesting ==> loading)
    }

    function CurrentView(): View
      reads this
    {
      Render(loading, error, video)
    }

    /** The initial state for the route's id, before the mount effect runs. */
    constructor (routeId: string)
      ensures Valid() && id == routeId
      ensures video == None && relatedVideos == [] && loading && error == None
      ensures !liked && !disliked && !subscribed && !isRequesting && pending == 0
    {
      id, video, relatedVideos, loading, error := routeId, None, [], true, None;
      liked, disliked, subscribed := false, false, false;
      isRequesting, pending := false, 0;
    }

    /** The effect on a (new) route id: the video, the related list and the
        error are reset and the page is loading before either fetch is issued;
        the video fetch is dropped if one is outstanding; the related-list
        fetch is always issued. The toggles are not reset. */
    method IdChanged(newId: string) returns (videoRequested: bool)
      requires Valid()
      modifies this
      ensures Valid()
      ensures id == newId && video == None && relatedVideos == [] && loading && error == None
      ensures CurrentView() == Spinner
      ensures videoRequested == !old(isRequesting)
      ensures isRequesting && pending == 1
      ensures liked == old(liked) && disliked == old(disliked) && subscribed == old(subscribed)
    {
      id, video, relatedVideos, loading, error := newId, None, [], true, None;
      videoRequested := BeginFetchVideo();
    }

    /** `fetchVideo` up to its request: dropped while another is outstanding;
        otherwise the page is loading. */
    method BeginFetchVideo() returns (issued: bool)
      requires Valid()
      modifies this`isRequesting, this`pending, this`loading
      ensures Valid()
      ensures issued == !old(isRequesting)
      ensures !issued ==> unchanged(this)
      ensures issued ==> loading
      ensures isRequesting && pending == 1
    {
      if isRequesting {
        return false;
      }
      isRequesting, pending := true, pending + 1;
      loading := true;
      issued := true;
    }

    /** `fetchVideo` after its request settles: success stores the video,
        failure records "Video not found"; loading ends and the flag is cleared. */
    method ReceiveVideo(response: Response<Video>)
      requires Valid() && pending == 1
      modifies this
      ensures Valid() && !loading && !isRequesting && pending == 0
      ensures video == if response.Success? then Some(response.data) else old(video)
      ensures error == if response.Success? then old(error) else Some(NOT_FOUND)
      ensures response.Success? && !Truthy(old(error)) ==> CurrentView() == Content(response.data)
      ensures response.Failure? ==> CurrentView() == ErrorScreen(NOT_FOUND)
      ensures id == old(id) && relatedVideos == old(relatedVideos)
      ensures liked == old(liked) && disliked == old(disliked) && subscribed == old(subscribed)
    {
      if response.Success? {
        video := Some(response.data);
      } else {
        error := Some(NOT_FOUND);
      }
      loading, isRequesting, pending := false, false, pending - 1;
    }

    /** `fetchRelatedVideos` after its request settles, for the id it was issued
        with: success stores the related selection, failure changes nothing. */
    method ReceiveRelated(forId: string, response: Response<seq<Video>>)
      modifies this`relatedVideos
      ensures relatedVideos == if response.Success? then RelatedVideos(response.data, forId) else old(relatedVideos)
    {
      if response.Success? {
        relatedVideos := RelatedVideos(response.data, forId);
      }
    }

    /** `handleLike`: on turns it off; off turns it on and turns dislike off. */
    method Like()
      requires Valid()
      modifies this`liked, this`disliked
      ensures Valid()
      ensures liked == !old(liked)
      ensures disliked == if old(liked) then old(disliked) else false
    {
      if liked {
        liked := false;
      } else {
        liked, disliked := true, false;
      }
    }

    /** `handleDislike`: the mirror image of Like. */
    method Dislike()
      requires Valid()
      modifies this`liked, this`disliked
      ensures Valid()
      ensures disliked == !old(disliked)
      ensures liked == if old(disliked) then old(liked) else false
    {
      if disliked {
        disliked := false;
      } else {
        disliked, liked := true, false;
      }
    }

    /** `handleSubscribe`: flips the subscription. */
    method Subscribe()
      modifies this`subscribed
      ensures subscribed == !old(subscribed)
    {
      subscribed := !subscribed;
    }
  }

  /** Opening video `b` while the fetch of video `a` is still outstanding: the
      guard drops b's fetch, and a's response is then shown under b's id. */
  method SwitchDuringFetch(a: string, b: string, videoA: Video) returns (page: VideoPage)
    requires a != b
    ensures page.id == b && page.CurrentView() == Content(videoA)
  {
    page := new VideoPage(a);
    var first := page.IdChanged(a);
    var second := page.IdChanged(b);
    assert first && !second;
    page.ReceiveVideo(Success(videoA));
  }

  /** Two subscribe clicks restore the subscription state. */
  method SubscribeTwice(page: VideoPage)
    modifies page
    ensures page.subscribed == old(page.subscribed)
  {
    page.Subscribe();
    page.Subscribe();
  }
}
