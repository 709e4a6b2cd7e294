/** The video-listing client: the paged trending-video fetch and the single-video
    detail lookup. The HTTP call is a parameter `fetch` that answers each request
    with a page or a failure (a non-OK status, a network error, an unreadable body). */
module YouTube {
  import opened Wrappers
  import Strings

  /** One element of the API's `items` array, reduced to the fields the client reads. */
  datatype Item = Item(
    id: string, title: string, channelTitle: string,
    highThumbnail: Option<string>, defaultThumbnail: Option<string>,
    viewCount: string, publishedAt: string, categoryId: string, description: string)

  datatype Video = Video(
    id: string, title: string, channelTitle: string, thumbnail: Option<string>,
    viewCount: string, publishedAt: string, categoryId: string, description: Option<string>)

  /** A trending-list request; an empty `pageToken` means the request carries none. */
  datatype PageRequest = PageRequest(regionCode: string, maxResults: int, pageToken: string)

  /** A page answer; an empty `nextPageToken` stands for an absent one (both are falsy in the client). */
  datatype PageResponse = PageFailed | Page(items: seq<Item>, nextPageToken: string)

  const MaxResultsPerRequest: int := 50

  /** `high?.url || default?.url`: the high-resolution thumbnail unless it is missing or empty. */
  function Thumbnail(high: Option<string>, default: Option<string>): (url: Option<string>)
    ensures url == high || url == default
    ensures url == high <== high.Some? && high.value != ""
    ensures url == default <== high.None? || high.value == ""
  {
    if high.Some? && high.value != "" then high else default
  }

  /** The list mapping of one item; it carries no description. */
  function ListVideo(item: Item): (v: Video)
    ensures v.id == item.id && v.title == item.title && v.channelTitle == item.channelTitle
    ensures v.viewCount == item.viewCount && v.publishedAt == item.publishedAt && v.categoryId == item.categoryId
    ensures v.thumbnail == Thumbnail(item.highThumbnail, item.defaultThumbnail)
    ensures v.description.None?
  {
    Video(item.id, item.title, item.channelTitle, Thumbnail(item.highThumbnail, item.defaultThumbnail),
          item.viewCount, item.publishedAt, item.categoryId, None)
  }

  /** The detail mapping of one item: the list mapping plus the description. */
  function DetailVideo(item: Item): (v: Video)
    ensures v == ListVideo(item).(description := Some(item.description))
  {
    Video(item.id, item.title, item.channelTitle, Thumbnail(item.highThumbnail, item.defaultThumbnail),
          item.viewCount, item.publishedAt, item.categoryId, Some(item.description))
  }

  /** The videos of one answer, in item order; a failed answer has none. */
  function PageVideos(response: PageResponse): (vs: seq<Video>)
    ensures response.Page? ==> |vs| == |response.items|
    ensures response.Page? ==> forall k :: 0 <= k < |vs| ==> vs[k] == ListVideo(response.items[k])
    ensures response.PageFailed? ==> vs == []
  {
    match response
    case PageFailed => []
    case Page(items, _) => seq(|items|, k requires 0 <= k < |items| => ListVideo(items[k]))
  }

  function TokenOf(response: PageResponse): string
  {
    if response.Page? then response.nextPageToken else ""
  }

  /** `Math.ceil(limit / 50)` for an integer limit, floored at zero: the number of passes the loop may make. */
  function Iterations(limit: int): (n: nat)
    ensures limit <= 0 ==> n == 0
    ensures limit > 0 ==> (n - 1) * MaxResultsPerRequest < limit <= n * MaxResultsPerRequest
  {
    if limit <= 0 then 0 else (limit + MaxResultsPerRequest - 1) / MaxResultsPerRequest
  }

  /** The videos gathered from the answers to `requests`, concatenated in request order. */
  function Gathered(fetch: PageRequest -> PageResponse, requests: seq<PageRequest>): seq<Video>
  {
    if requests == [] then []
    else Gathered(fetch, requests[..|requests| - 1]) + PageVideos(fetch(requests[|requests| - 1]))
  }

  /** The request the loop issues once `requests` have been answered: it asks for the smaller of 50
      and what is still missing of `limit`, and passes on the previous page's token. */
  function NextRequest(regionCode: string, limit: int, fetch: PageRequest -> PageResponse, requests: seq<PageRequest>): PageRequest
  {
    PageRequest(
      regionCode,
      Strings.Min(MaxResultsPerRequest, limit - |Gathered(fetch, requests)|),
      if requests == [] then "" else TokenOf(fetch(requests[|requests| - 1])))
  }

  /** `requests` is the sequence of calls the loop makes: each one is the request due after the ones
      before it, and every answer but the last was a page that named a next page. */
  ghost predicate IsRequestTrace(regionCode: string, limit: int, fetch: PageRequest -> PageResponse, requests: seq<PageRequest>)
  {
    && (forall k :: 0 <= k < |requests| ==> IsDueAt(regionCode, limit, fetch, requests, k))
    && (forall k :: 0 <= k < |requests| - 1 ==> fetch(requests[k]).Page? && fetch(requests[k]).nextPageToken != "")
  }

  /** The `k`-th request is the one due after the first `k` were answered. */
  ghost predicate IsDueAt(regionCode: string, limit: int, fetch: PageRequest -> PageResponse, requests: seq<PageRequest>, k: nat)
    requires k < |requests|
  {
    requests[k] == NextRequest(regionCode, limit, fetch, requests[..k])
  }

  lemma GatheredSnoc(fetch: PageRequest -> PageResponse, requests: seq<PageRequest>, request: PageRequest)
    ensures Gathered(fetch, requests + [request]) == Gathered(fetch, requests) + PageVideos(fetch(request))
  {
    assert (requests + [request])[..|requests|] == requests;
  }

  /** The trace grows by the request due next, provided the last answer named a next page. */
  lemma TraceSnoc(regionCode: string, limit: int, fetch: PageRequest -> PageResponse, requests: seq<PageRequest>)
    requires IsRequestTrace(regionCode, limit, fetch, requests)
    requires requests != [] ==>
      fetch(requests[|requests| - 1]).Page? && fetch(requests[|requests| - 1]).nextPageToken != ""
    ensures IsRequestTrace(regionCode, limit, fetch, requests + [NextRequest(regionCode, limit, fetch, requests)])
  {
    var extended := requests + [NextRequest(regionCode, limit, fetch, requests)];
    forall k | 0 <= k < |extended|
      ensures IsDueAt(regionCode, limit, fetch, extended, k)
    {
      if k < |requests| {
        assert IsDueAt(regionCode, limit, fetch, requests, k);
        assert extended[..k] == requests[..k];
      } else {
        assert extended[..k] == requests;
      }
    }
  }

  /** Every prefix of a trace is a trace. */
  lemma TracePrefix(regionCode: string, limit: int, fetch: PageRequest -> PageResponse, requests: seq<PageRequest>, n: nat)
    requires IsRequestTrace(regionCode, limit, fetch, requests)
    requires n <= |requests|
    ensures IsRequestTrace(regionCode, limit, fetch, requests[..n])
  {
    forall k | 0 <= k < n
      ensures IsDueAt(regionCode, limit, fetch, requests[..n], k)
    {
      assert IsDueAt(regionCode, limit, fetch, requests, k);
      assert requests[..n][..k] == requests[..k];
    }
  }

  /** The trending list. Without a key nothing is fetched. Otherwise the loop issues at most
      `Iterations(limit)` requests, each the one due after the previous answers; it stops early after
      a page without a next token; a failed answer discards everything and yields []. Otherwise the
      result is the concatenation of all pages in fetch order. `requests` records the calls made. */
  method GetTrendingVideos(apiKey: bool, regionCode: string, limit: int, fetch: PageRequest -> PageResponse)
    returns (videos: seq<Video>, requests: seq<PageRequest>)
    ensures !apiKey ==> videos == [] && requests == []
    ensures |requests| <= Iterations(limit)
    ensures IsRequestTrace(regionCode, limit, fetch, requests)
    ensures apiKey && |requests| < Iterations(limit) ==>
      |requests| > 0 && (fetch(requests[|requests| - 1]).PageFailed? || fetch(requests[|requests| - 1]).nextPageToken == "")
    ensures |requests| > 0 && fetch(requests[|requests| - 1]).PageFailed? ==> videos == []
    ensures !(|requests| > 0 && fetch(requests[|requests| - 1]).PageFailed?) ==> videos == Gathered(fetch, requests)
  {
    videos, requests := [], [];
    if !apiKey {
      return;
    }
    var allVideos: seq<Video> := [];
    var nextPageToken := "";
    var iterations := Iterations(limit);
    var i := 0;
    while i < iterations
      invariant 0 <= i <= iterations
      invariant |requests| == i
      invariant IsRequestTrace(regionCode, limit, fetch, requests)
      invariant allVideos == Gathered(fetch, requests)
      invariant i > 0 ==> fetch(requests[i - 1]).Page? && nextPageToken == fetch(requests[i - 1]).nextPageToken != ""
      invariant i == 0 ==> nextPageToken == ""
    {
      var currentMaxResults := Strings.Min(MaxResultsPerRequest, limit - |allVideos|);
      var request := PageRequest(regionCode, currentMaxResults, nextPageToken);
      var response := fetch(request);
      TraceSnoc(regionCode, limit, fetch, requests);
      GatheredSnoc(fetch, requests, request);
      requests := requests + [request];
      if response.PageFailed? {
        videos := [];
        return;
      }
      allVideos := allVideos + PageVideos(response);
      nextPageToken := response.nextPageToken;
      if nextPageToken == "" {
        break;
      }
      i := i + 1;
    }
    videos := allVideos;
  }

  /** When the service never returns more items than asked for, every request asks for between 1
      and 50 results and the whole trace gathers at most `limit` videos. */
  lemma {:induction false} TraceBounds(
    regionCode: string, limit: int, fetch: PageRequest -> PageResponse, requests: seq<PageRequest>)
    requires IsRequestTrace(regionCode, limit, fetch, requests)
    requires |requests| <= Iterations(limit)
    requires forall q :: fetch(q).Page? ==> |fetch(q).items| <= q.maxResults
    ensures forall k :: 0 <= k < |requests| ==> 1 <= requests[k].maxResults <= MaxResultsPerRequest
    ensures |Gathered(fetch, requests)| <= MaxResultsPerRequest * |requests|
    ensures requests != [] ==> |Gathered(fetch, requests)| <= limit
  {
    if requests != [] {
      var n := |requests| - 1;
      var prefix := requests[..n];
      TracePrefix(regionCode, limit, fetch, requests, n);
      TraceBounds(regionCode, limit, fetch, prefix);
      var last := requests[n];
      assert requests == prefix + [last];
      GatheredSnoc(fetch, prefix, last);
      assert IsDueAt(regionCode, limit, fetch, requests, n);
      var gathered := |Gathered(fetch, prefix)|;
      assert last.maxResults == Strings.Min(MaxResultsPerRequest, limit - gathered);
      assert gathered <= MaxResultsPerRequest * n;
      assert MaxResultsPerRequest * n < limit;
      assert |PageVideos(fetch(last))| <= last.maxResults;
      forall k | 0 <= k < |requests|
        ensures 1 <= requests[k].maxResults <= MaxResultsPerRequest
      {
        if k < n {
          assert requests[k] == prefix[k];
        }
      }
    }
  }

  datatype DetailResponse = DetailFailed | Detail(items: Option<seq<Item>>)

  /** The details of one video: None without a key, on a failed answer, or when the answer has no
      items; otherwise the detail mapping of the first item. */
  function GetVideoDetails(apiKey: bool, videoId: string, fetch: string -> DetailResponse): (r: Option<Video>)
    ensures r.Some? <==>
      apiKey && fetch(videoId).Detail? && fetch(videoId).items.Some? && |fetch(videoId).items.value| > 0
    ensures r.Some? ==> r.value == DetailVideo(fetch(videoId).items.value[0])
  {
    if !apiKey then None
    else
      match fetch(videoId)
      case DetailFailed => None
      case Detail(items) =>
        if items.None? || |items.value| == 0 then None
        else Some(DetailVideo(items.value[0]))
  }
}
