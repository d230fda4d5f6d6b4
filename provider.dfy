/**
 * YouTubeProvider: turning what a user submitted into a video reference (fixBinaryContent and
 * doTransform) and refreshing a media from the oEmbed endpoint (updateMetadata).
 *
 * The oEmbed fetch itself (an HTTP request and JSON decoding, done by the base class) is a
 * parameter: `remote` maps the request URL to what the fetch gave, the decoded object or a failure.
 */
module Provider {
  import opened Wrappers
  import opened PhpArray
  import opened ReferencePattern
  import opened ReferenceUrl
  import opened MediaEntity
  import PlayerConfig

  /** What fetching the oEmbed URL gave: the decoded object, or the runtime exception it raised. */
  datatype Fetch = Fetched(metadata: map<string, Value>) | FetchFailed

  /** Reading `$metadata[$key]`: a missing key reads as null. */
  function Field(metadata: map<string, Value>, key: string): (r: Value)
    ensures key !in metadata ==> r == Null
    ensures key in metadata ==> r == metadata[key]
  {
    if key in metadata then metadata[key] else Null
  }

  const FlvContentType: string := "video/x-flv"

  // ---------------------------------------------------------------------------------------------
  // What each operation leaves behind, as functions of the entity's state.
  // ---------------------------------------------------------------------------------------------

  /** The binary content after fixBinaryContent: absent stays absent, text is normalised. */
  function FixedContent(content: Option<string>): (r: Option<string>)
    ensures r.None? <==> content.None?
    ensures content.Some? ==> r.value == Normalize(content.value)
  {
    match content
    case None => None
    case Some(c) => Some(Normalize(c))
  }

  /** The entity after the oEmbed answer `fetched` is applied. */
  function Refreshed(st: MediaState, force: bool, fetched: Fetch): (r: MediaState)
    ensures fetched.FetchFailed? ==> r == st.(enabled := false, providerStatus := Error)
    ensures fetched.Fetched? ==>
      r.providerMetadata == fetched.metadata
      && r.height == Field(fetched.metadata, "height") && r.width == Field(fetched.metadata, "width")
      && r.contentType == Some(FlvContentType)
      && r.enabled == st.enabled && r.providerStatus == st.providerStatus
    ensures fetched.Fetched? && force ==>
      r.name == Field(fetched.metadata, "title") && r.authorName == Field(fetched.metadata, "author_name")
    ensures !force ==> r.name == st.name && r.authorName == st.authorName
    ensures r.binaryContent == st.binaryContent && r.providerName == st.providerName
      && r.providerReference == st.providerReference
  {
    match fetched
    case FetchFailed => st.(enabled := false, providerStatus := Error)
    case Fetched(m) =>
      var named := if force then st.(name := Field(m, "title"), authorName := Field(m, "author_name")) else st;
      named.(providerMetadata := m, height := Field(m, "height"), width := Field(m, "width"),
        contentType := Some(FlvContentType))
  }

  /**
   * updateMetadata: the reference URL (an error when there is no reference), then the oEmbed fetch
   * of it, applied to the entity.
   */
  function Synced(st: MediaState, force: bool, remote: string -> Fetch): (r: Result<MediaState, Exception>)
    ensures r.Failure? <==> st.providerReference.None?
    ensures r.Failure? ==> r.error == InvalidArgument(MissingReference)
    ensures r.Success? ==>
      r.value == Refreshed(st, force, remote(OembedUrl(WatchPrefix + st.providerReference.value)))
  {
    match GetReferenceUrl(st.providerReference)
    case Failure(e) => Failure(e)
    case Success(url) => Success(Refreshed(st, force, remote(OembedUrl(url))))
  }

  /**
   * doTransform: normalise the content; with none, nothing more happens; otherwise name the
   * provider, mark the status OK, take the content as the reference and refresh by force.
   */
  function Transformed(st: MediaState, providerName: string, remote: string -> Fetch): (r: MediaState)
    ensures st.binaryContent.None? ==> r == st
    ensures st.binaryContent.Some? ==>
      r.binaryContent == Some(Normalize(st.binaryContent.value)) && r.providerReference == r.binaryContent
      && r.providerName == Some(providerName)
    ensures st.binaryContent.Some? ==>
      (r.providerStatus == Ok && r.enabled == st.enabled) || (r.providerStatus == Error && !r.enabled)
  {
    match FixedContent(st.binaryContent)
    case None => st
    case Some(c) =>
      var tagged := st.(binaryContent := Some(c), providerName := Some(providerName), providerStatus := Ok,
        providerReference := Some(c));
      Refreshed(tagged, true, remote(OembedUrl(WatchPrefix + c)))
  }

  // ---------------------------------------------------------------------------------------------
  // The provider.
  // ---------------------------------------------------------------------------------------------

  class YouTubeProvider {
    /** The provider's service name, recorded on the media it transforms. */
    const name: string
    /** The html5 flag getHelperProperties falls back on. */
    const html5: bool

    constructor (name: string, html5: bool)
      ensures this.name == name && this.html5 == html5
    {
      this.name := name;
      this.html5 := html5;
    }

    /**
     * getHelperProperties of this provider: the player configuration, with the provider's html5
     * flag as the fallback for an unset `html5` option.
     */
    function GetHelperProperties(options: PlayerConfig.Options, box: PlayerConfig.Box, encode: string -> string)
      : (r: PlayerConfig.HelperProperties)
      ensures options.html5 == Null ==> r.html5 == Bool(html5)
      ensures options.html5 != Null ==> r.html5 == options.html5
      ensures r.playerParameters == PlayerConfig.PlayerParameters(options, box)
    {
      PlayerConfig.GetHelperProperties(html5, options, box, encode)
    }

    /** fixBinaryContent: replace a link to a video by the video's id. */
    method FixBinaryContent(media: Media)
      modifies media`binaryContent
      ensures media.binaryContent == FixedContent(old(media.binaryContent))
    {
      if media.binaryContent == None {
        return;
      }
      var content := media.binaryContent.value;
      if |content| == ReferenceLength {
        return;
      }
      match MatchVideoId(content)
      case Some(id) =>
        media.binaryContent := Some(id);
      case None =>
    }

    /**
     * updateMetadata. Without a reference the exception is raised and nothing changes; a failed
     * fetch disables the media and marks it in error; otherwise the answer is stored.
     */
    method UpdateMetadata(media: Media, force: bool, remote: string -> Fetch) returns (raised: Option<Exception>)
      modifies media
      ensures var r := Synced(old(media.State()), force, remote);
        (r.Failure? ==> raised == Some(r.error) && media.State() == old(media.State())) &&
        (r.Success? ==> raised == None && media.State() == r.value)
    {
      ghost var st := media.State();
      var url := GetReferenceUrl(media.providerReference);
      if url.Failure? {
        return Some(url.error);
      }
      assert Synced(st, force, remote) == Success(Refreshed(st, force, remote(OembedUrl(url.value))));
      match remote(OembedUrl(url.value))
      case FetchFailed =>
        media.enabled := false;
        media.providerStatus := Error;
        return None;
      case Fetched(metadata) =>
        media.providerMetadata := metadata;
        if force {
          media.name := Field(metadata, "title");
          media.authorName := Field(metadata, "author_name");
        }
        media.height := Field(metadata, "height");
        media.width := Field(metadata, "width");
        media.contentType := Some(FlvContentType);
        return None;
    }

    /** doTransform. It never raises: the reference is set before the metadata is refreshed. */
    method DoTransform(media: Media, remote: string -> Fetch) returns (raised: Option<Exception>)
      modifies media
      ensures raised == None
      ensures media.State() == Transformed(old(media.State()), name, remote)
    {
      ghost var st := media.State();
      FixBinaryContent(media);
      if media.binaryContent == None {
        return None;
      }
      media.providerName := Some(name);
      media.providerStatus := Ok;
      media.providerReference := media.binaryContent;
      ghost var tagged := media.State();
      assert tagged == st.(binaryContent := tagged.binaryContent, providerName := Some(name), providerStatus := Ok,
        providerReference := tagged.binaryContent);
      raised := UpdateMetadata(media, true, remote);
    }
  }

  // ---------------------------------------------------------------------------------------------
  // Properties.
  // ---------------------------------------------------------------------------------------------

  /**
   * A transform whose fetch succeeds: the reference is the normalised content, the status OK, and
   * title, author, size and metadata come from the answer.
   */
  lemma TransformFetchSucceeds(st: MediaState, providerName: string, remote: string -> Fetch, m: map<string, Value>)
    requires st.binaryContent.Some?
    requires remote(OembedUrl(WatchPrefix + Normalize(st.binaryContent.value))) == Fetched(m)
    ensures var r := Transformed(st, providerName, remote);
      r.providerReference == Some(Normalize(st.binaryContent.value)) && r.providerStatus == Ok
      && r.enabled == st.enabled && r.providerMetadata == m
      && r.name == Field(m, "title") && r.authorName == Field(m, "author_name")
      && r.height == Field(m, "height") && r.width == Field(m, "width")
      && r.contentType == Some(FlvContentType)
  {
  }

  /**
   * A transform whose fetch fails: disabled and in error, but the reference is kept and title,
   * author, size, content type and metadata are left as they were.
   */
  lemma TransformFetchFails(st: MediaState, providerName: string, remote: string -> Fetch)
    requires st.binaryContent.Some?
    requires remote(OembedUrl(WatchPrefix + Normalize(st.binaryContent.value))) == FetchFailed
    ensures var r := Transformed(st, providerName, remote);
      r.providerReference == Some(Normalize(st.binaryContent.value)) && r.providerStatus == Error
      && !r.enabled && r.providerMetadata == st.providerMetadata
      && r.name == st.name && r.authorName == st.authorName
      && r.height == st.height && r.width == st.width && r.contentType == st.contentType
  {
  }

  /** A failed fetch has the same effect whether or not the refresh is forced. */
  lemma FailedSyncIgnoresForce(st: MediaState, remote: string -> Fetch)
    requires st.providerReference.Some?
    requires remote(OembedUrl(WatchPrefix + st.providerReference.value)) == FetchFailed
    ensures Synced(st, true, remote) == Synced(st, false, remote)
    ensures Synced(st, true, remote).value == st.(enabled := false, providerStatus := Error)
  {
  }

  /** A refresh that is not forced stores everything but the title and the author. */
  lemma UnforcedSyncKeepsNames(st: MediaState, remote: string -> Fetch)
    requires st.providerReference.Some?
    ensures Synced(st, false, remote).Success?
    ensures Synced(st, false, remote).value ==
      Synced(st, true, remote).value.(name := st.name, authorName := st.authorName)
  {
  }

  /**
   * Transforming again, with whatever answer the second fetch gets, keeps the content, the
   * reference and the provider name of the first transform, provided the normalised content has no
   * `/` (a video id never does; a link the pattern does not recognise may). When the second fetch
   * gets the same answer as the first, nothing changes at all.
   */
  lemma TransformIdempotent(st: MediaState, providerName: string, first: string -> Fetch, second: string -> Fetch)
    requires st.binaryContent.Some?
    requires forall t :: 0 <= t < |Normalize(st.binaryContent.value)| ==> Normalize(st.binaryContent.value)[t] != '/'
    ensures var once := Transformed(st, providerName, first);
      var twice := Transformed(once, providerName, second);
      twice.binaryContent == once.binaryContent && twice.providerReference == once.providerReference
      && twice.providerName == once.providerName
    ensures var url := OembedUrl(WatchPrefix + Normalize(st.binaryContent.value));
      second(url) == first(url) ==>
        Transformed(Transformed(st, providerName, first), providerName, second) == Transformed(st, providerName, first)
  {
    NormalizeIdempotent(st.binaryContent.value);
  }

  /** A watch-page link submitted as content yields the video id as the reference. */
  lemma TransformWatchUrl(st: MediaState, providerName: string, remote: string -> Fetch, id: string)
    requires |id| > 0 && IsIdRun(id)
    requires st.binaryContent == Some(WatchPrefix + id)
    ensures Transformed(st, providerName, remote).providerReference == Some(id)
  {
    NormalizeWatchUrl(id);
    assert FixedContent(st.binaryContent) == Some(id);
  }

}
