/**
 * The URLs the YouTube provider derives from a media's provider reference: the public watch page
 * (getReferenceUrl), the oEmbed metadata endpoint queried by updateMetadata, and the redirect
 * getDownloadResponse answers with.
 */
module ReferenceUrl {
  import opened Wrappers
  import opened PhpArray
  import opened ReferencePattern
  import opened HttpQuery

  /** The one exception the URL builders raise. */
  datatype Exception = InvalidArgument(message: string)

  const WatchPrefix: string := "https://www.youtube.com/watch?v="
  const OembedBase: string := "https://www.youtube.com/oembed?"
  const MissingReference: string :=
    "Unable to generate reference url for media without provider reference."

  /** getReferenceUrl: the watch page of the referenced video; no reference is an error. */
  function GetReferenceUrl(reference: Option<string>): (r: Result<string, Exception>)
    ensures r.Failure? <==> reference.None?
    ensures r.Failure? ==> r.error == InvalidArgument(MissingReference)
    ensures r.Success? ==> WatchPrefix <= r.value && r.value[|WatchPrefix|..] == reference.value
  {
    match reference
    case None => Failure(InvalidArgument(MissingReference))
    case Some(id) => Success(WatchPrefix + id)
  }

  /**
   * The oEmbed request updateMetadata sends: the endpoint, then a query into which the reference
   * URL is placed as it is, without percent-encoding. For a reference URL without `&` the query
   * reads back as `url`, holding the whole reference URL, and `format=json`.
   */
  function OembedUrl(referenceUrl: string): (r: string)
    ensures |r| > |OembedBase| && r[..|OembedBase|] == OembedBase
    ensures '&' !in referenceUrl ==> SplitAmp(r[|OembedBase|..]) == ["url=" + referenceUrl, "format=json"]
  {
    var r := OembedBase + OembedQuery(referenceUrl);
    assert r[|OembedBase|..] == OembedQuery(referenceUrl);
    assert '&' !in referenceUrl ==> SplitAmp(r[|OembedBase|..]) == ["url=" + referenceUrl, "format=json"] by {
      if '&' !in referenceUrl {
        OembedQueryReadsBack(referenceUrl);
      }
    }
    r
  }

  function OembedQuery(referenceUrl: string): string {
    "url=" + referenceUrl + "&" + "format=json"
  }

  /** The response getDownloadResponse builds: a redirect with the given status and headers. */
  datatype Redirect = Redirect(targetUrl: string, status: int, headers: Table)

  /**
   * getDownloadResponse: a 302 redirect to the watch page, carrying the caller's headers; the
   * format and the mode play no part.
   */
  function GetDownloadResponse(reference: Option<string>, format: string, mode: string, headers: Table)
    : (r: Result<Redirect, Exception>)
    ensures r.Failure? <==> reference.None?
    ensures r.Failure? ==> r.error == InvalidArgument(MissingReference)
    ensures r.Success? ==> r.value.status == 302 && r.value.headers == headers
    ensures r.Success? ==> Success(r.value.targetUrl) == GetReferenceUrl(reference)
  {
    match GetReferenceUrl(reference)
    case Failure(e) => Failure(e)
    case Success(url) => Success(Redirect(url, 302, headers))
  }

  // ---------------------------------------------------------------------------------------------
  // Properties.
  // ---------------------------------------------------------------------------------------------

  /**
   * Round trip: normalising the watch URL of a video id gives the id back, so the reference URL
   * identifies the reference it was built from.
   */
  lemma ReferenceUrlRoundTrip(id: string)
    requires |id| > 0 && IsIdRun(id)
    ensures GetReferenceUrl(Some(id)).Success?
    ensures Normalize(GetReferenceUrl(Some(id)).value) == id
  {
    NormalizeWatchUrl(id);
  }

  /** The download redirect points at a page whose normalisation is the media's reference. */
  lemma DownloadTargetsReference(id: string, format: string, mode: string, headers: Table)
    requires |id| > 0 && IsIdRun(id)
    ensures GetDownloadResponse(Some(id), format, mode, headers).Success?
    ensures Normalize(GetDownloadResponse(Some(id), format, mode, headers).value.targetUrl) == id
  {
    ReferenceUrlRoundTrip(id);
  }

  /**
   * For a reference URL without `&`, the oEmbed query reads back as two parameters: `url`, holding
   * the whole reference URL, and `format=json`.
   */
  lemma OembedQueryReadsBack(referenceUrl: string)
    requires '&' !in referenceUrl
    ensures SplitAmp(OembedQuery(referenceUrl)) == ["url=" + referenceUrl, "format=json"]
  {
    AmpFreeConcat("url=", referenceUrl);
    SplitAmpTwo("url=" + referenceUrl, "format=json");
  }

  /**
   * For a reference that is a video id, the oEmbed query reads back as `url`, holding the id's
   * whole watch URL, and `format=json`.
   */
  lemma OembedQueryOfVideoId(id: string)
    requires IsIdRun(id)
    ensures GetReferenceUrl(Some(id)).Success?
    ensures SplitAmp(OembedQuery(GetReferenceUrl(Some(id)).value)) == ["url=" + (WatchPrefix + id), "format=json"]
  {
    AmpFreeConcat(WatchPrefix, id);
    OembedQueryReadsBack(WatchPrefix + id);
  }

  lemma AmpFreeConcat(a: string, b: string)
    requires '&' !in a && '&' !in b
    ensures '&' !in a + b
  {
  }

  /**
   * A reference URL holding an `&` (a reference of exactly eleven characters is stored as given)
   * cuts the `url` parameter short: what follows the `&` reads back as a parameter of its own.
   */
  lemma OembedQuerySplitsAtAmpersand(before: string, after: string)
    requires '&' !in before && '&' !in after
    ensures SplitAmp(OembedQuery(before + "&" + after)) == ["url=" + before, after, "format=json"]
  {
    AmpFreeConcat("url=", before);
    var first, rest := "url=" + before, after + "&" + "format=json";
    calc {
      OembedQuery(before + "&" + after);
      "url=" + (before + "&" + after) + "&" + "format=json";
      { assert "url=" + (before + "&" + after) == first + "&" + after; }
      first + "&" + after + "&" + "format=json";
      first + "&" + rest;
    }
    SplitAmpPiece("url=" + before, after + "&" + "format=json");
    SplitAmpTwo(after, "format=json");
  }
}
