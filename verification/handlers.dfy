/**
 * The decisions the message handlers take before and after a download:
 * which handler a text goes to, whether a search query is worth searching,
 * and how a downloaded file is sent (`handle_instagram_link`).
 */
module Handlers {
  import opened Wrappers
  import opened Text
  import opened Listing

  // ---------------------------------------------------------------------------
  // Media kind

  const VideoSuffixes: seq<string> := [".mp4", ".mkv", ".mov"]
  const PhotoSuffixes: seq<string> := [".jpg", ".jpeg", ".png", ".webp"]

  datatype MediaKind = Video | Photo | Document

  /** The send call a file gets, decided by the ending of its lower-cased name. */
  function ClassifyMedia(filename: string): (k: MediaKind)
    ensures k == Video <==> EndsWithAny(ToLower(filename), VideoSuffixes)
    ensures k == Photo <==> !EndsWithAny(ToLower(filename), VideoSuffixes) && EndsWithAny(ToLower(filename), PhotoSuffixes)
    ensures k == Document <==> !EndsWithAny(ToLower(filename), VideoSuffixes) && !EndsWithAny(ToLower(filename), PhotoSuffixes)
  {
    var lower := ToLower(filename);
    if EndsWithAny(lower, VideoSuffixes) then Video
    else if EndsWithAny(lower, PhotoSuffixes) then Photo
    else Document
  }

  /** The kind does not depend on the case of the name. */
  lemma ClassifyIgnoresCase(filename: string)
    ensures ClassifyMedia(ToLower(filename)) == ClassifyMedia(filename)
  {
    forall i | 0 <= i < |filename|
      ensures ToLower(ToLower(filename))[i] == ToLower(filename)[i]
    {
      LowerCharIdempotent(filename[i]);
    }
    assert ToLower(ToLower(filename)) == ToLower(filename);
  }

  lemma ToLowerAppend(a: string, b: string)
    ensures ToLower(a + b) == ToLower(a) + ToLower(b)
  {
    assert forall i :: 0 <= i < |a + b| ==> ToLower(a + b)[i] == (ToLower(a) + ToLower(b))[i];
  }

  lemma EndsWithAppend(a: string, b: string)
    ensures EndsWith(a + b, b)
  {
    assert (a + b)[|a + b| - |b|..] == b;
  }

  /** The last characters of a string decide which suffixes of a list it can end with. */
  lemma LastCharExcludes(s: string, xs: seq<string>)
    requires |s| > 0
    requires forall k :: 0 <= k < |xs| ==> |xs[k]| > 0 && xs[k][|xs[k]| - 1] != s[|s| - 1]
    ensures !EndsWithAny(s, xs)
  {
    forall k | 0 <= k < |xs|
      ensures !EndsWith(s, xs[k])
    {
      if |xs[k]| <= |s| {
        assert s[|s| - |xs[k]|..][|xs[k]| - 1] == s[|s| - 1];
      }
    }
  }

  /** A name whose extension is a video extension in any case is sent as a video. */
  lemma VideoByExtension(base: string, ext: string)
    requires ToLower(ext) in VideoSuffixes
    ensures ClassifyMedia(base + ext) == Video
  {
    var lext := ToLower(ext);
    var lower := ToLower(base + ext);
    ToLowerAppend(base, ext);
    EndsWithAppend(ToLower(base), lext);
    var k :| 0 <= k < |VideoSuffixes| && VideoSuffixes[k] == lext;
    assert EndsWith(lower, VideoSuffixes[k]);
  }

  /** A name whose extension is a photo extension in any case is sent as a photo. */
  lemma PhotoByExtension(base: string, ext: string)
    requires ToLower(ext) in PhotoSuffixes
    ensures ClassifyMedia(base + ext) == Photo
  {
    var lext := ToLower(ext);
    var lower := ToLower(base + ext);
    ToLowerAppend(base, ext);
    EndsWithAppend(ToLower(base), lext);
    var k :| 0 <= k < |PhotoSuffixes| && PhotoSuffixes[k] == lext;
    assert EndsWith(lower, PhotoSuffixes[k]);
    PhotoEndingIsNotVideo(lower, k);
  }

  /** Every photo extension ends in a character no video extension ends in. */
  lemma PhotoEndingIsNotVideo(s: string, k: int)
    requires 0 <= k < |PhotoSuffixes| && EndsWith(s, PhotoSuffixes[k])
    ensures !EndsWithAny(s, VideoSuffixes)
  {
    var x := PhotoSuffixes[k];
    assert s[|s| - 1] == x[|x| - 1];
    assert x[|x| - 1] == 'g' || x[|x| - 1] == 'p';
    LastCharExcludes(s, VideoSuffixes);
  }

  // ---------------------------------------------------------------------------
  // Routing and the search query

  datatype QueryDecision = Ignore | SearchFor(query: string)

  /**
   * The guard of `handle_music_search`: the stripped text is searched unless
   * it is shorter than two characters or starts with `/`.
   */
  function FilterQuery(text: string): (r: QueryDecision)
    ensures r.Ignore? <==> |Strip(text)| < 2 || Strip(text)[0] == '/'
    ensures r.SearchFor? ==> && IsTrimOf(text, r.query)
                             && |r.query| >= 2 && r.query[0] != '/'
                             && !IsSpace(r.query[0]) && !IsSpace(r.query[|r.query| - 1])
  {
    var query := Strip(text);
    if |query| < 2 then Ignore
    else if query[0] == '/' then Ignore
    else SearchFor(query)
  }

  /** Surrounding whitespace never changes the decision. */
  lemma FilterQueryIgnoresPadding(text: string)
    ensures FilterQuery(Strip(text)) == FilterQuery(text)
  {
    StripIdempotent(text);
  }

  datatype Route =
    | Greeting                                // `cmd_start`
    | InstagramLink(url: string)              // `handle_instagram_link`
    | MusicSearch(decision: QueryDecision)    // `handle_music_search`

  /**
   * The dispatcher: the start command first, then any text containing
   * `instagram.com` (its stripped form is the URL), then every other text.
   * Whether a text is the start command is decided by the bot library and
   * is given.
   */
  function RouteText(text: string, isStartCommand: bool): (r: Route)
    ensures r.Greeting? <==> isStartCommand
    ensures r.InstagramLink? <==> !isStartCommand && Contains(text, "instagram.com")
    ensures r.InstagramLink? ==> r.url == Strip(text)
    ensures r.MusicSearch? ==> r.decision == FilterQuery(text)
  {
    if isStartCommand then Greeting
    else if Contains(text, "instagram.com") then InstagramLink(Strip(text))
    else MusicSearch(FilterQuery(text))
  }

  /**
   * Routing is stable on links: the URL a link is routed with, sent again as
   * a message, is routed as the same link.
   */
  lemma RouteLinkIsStable(text: string)
    requires RouteText(text, false).InstagramLink?
    ensures RouteText(RouteText(text, false).url, false) == RouteText(text, false)
  {
    var j :| 0 <= j <= |text| && OccursAt(text, "instagram.com", j);
    StripKeepsInnerText(text, "instagram.com", j);
    StripIdempotent(text);
  }

  // ---------------------------------------------------------------------------
  // Delivery

  datatype Delivery =
    | Apology                                                   // "could not download" message
    | Send(kind: MediaKind, path: string, extractAudio: bool)   // send, then maybe extract the audio

  /**
   * What `handle_instagram_link` does with the downloaded filename: an
   * existing file is sent according to its kind; after a video the audio is
   * extracted too.
   */
  function PlanDelivery(url: string, filename: Option<string>, fs: set<string>): (r: Delivery)
    ensures r.Send? <==> Usable(filename, fs)
    ensures r.Send? ==> r.path == filename.value && r.path in fs && r.kind == ClassifyMedia(r.path)
    ensures r.Send? ==> (r.extractAudio <==> r.kind == Video)
  {
    if Usable(filename, fs) then
      var path := filename.value;
      var kind := ClassifyMedia(path);
      var isVideo := kind == Video;
      Send(kind, path, isVideo && (Contains(url, "/reel/") || Contains(url, "/reels/") || isVideo))
    else Apology
  }
}
