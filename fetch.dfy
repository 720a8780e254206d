/** What is left of the two fetchers once the HTTP requests are taken out: the truncation of the
    search result and the completeness check on one object record. */
module Fetch {
  import opened Wrappers
  import opened Records

  /** `ids.slice(0, end)` in JavaScript: a negative end counts back from the end of the array. */
  function SliceTo(ids: seq<int>, end: int): (r: seq<int>)
    ensures r <= ids
    ensures end >= 0 ==> |r| == if end < |ids| then end else |ids|
    ensures end < 0 ==> |r| == if |ids| + end > 0 then |ids| + end else 0
  {
    var stop := if end < 0 then |ids| + end else end;
    if stop <= 0 then [] else if stop >= |ids| then ids else ids[..stop]
  }

  /** The identifiers handed to the item loop. `response` is the parsed `objectIDs` array of a
      successful search, or `None` when the request failed, the status was not OK, the body did not
      parse or `objectIDs` was null; every one of those ends in the empty list. */
  function SearchHighlightPaintings(response: Option<seq<int>>, limit: int): (ids: seq<int>)
    ensures response.None? ==> ids == []
    ensures response.Some? ==> ids <= response.value
    ensures response.Some? && limit >= 0 ==>
      |ids| == if limit < |response.value| then limit else |response.value|
  {
    match response
    case None => []
    case Some(all) => SliceTo(all, limit)
  }

  /** The result of one detail request: `None` when the request failed, the status was not OK or
      the body did not parse. */
  function FetchDetails(details: map<int, RemoteRecord>, objectID: int): Option<RemoteRecord>
  {
    if objectID in details then Some(details[objectID]) else None
  }

  /** The completeness check of the detail fetcher: the fetched record comes back whole when its
      image, title and artist are all truthy, and nothing comes back otherwise. */
  function GetArtworkDetails(fetched: Option<RemoteRecord>): (r: Option<RemoteRecord>)
    ensures r.Some? <==> fetched.Some? && IsComplete(fetched.value)
    ensures r.Some? ==> r == fetched
  {
    if fetched.Some? && IsComplete(fetched.value) then fetched else None
  }
}
