/**
 * The Instagram download path: `download_with_instaloader` (guards and file
 * discovery), the two-stage fallback of `download_instagram_content`, and the
 * MP3 path derived by `extract_reels_audio`.
 *
 * The downloaders themselves are oracles: the instaloader fetch is a flag
 * saying whether `Post.from_shortcode` and `download_post` returned without
 * raising, and yt-dlp contributes the optional path it reported. The
 * filesystem is the set of paths that exist when the bot looks.
 */
module Instagram {
  import opened Wrappers
  import opened Text
  import opened Listing
  import opened Shortcode

  /** The extensions tried one after the other, each as the glob `<shortcode>*.<ext>`. */
  const PreferredExts: seq<string> := ["mp4", "jpg", "jpeg", "png", "webp"]

  /** Side files instaloader may leave next to the media. */
  const SidecarSuffixes: seq<string> := [".txt", ".json", ".xz"]

  /** `name` matches the glob `<sc>*.<PreferredExts[k]>`. */
  predicate ExtMatch(sc: string, k: int, name: string)
    requires 0 <= k < |PreferredExts|
  {
    GlobMatch(name, sc, "." + PreferredExts[k])
  }

  /** `name` matches the glob `<sc>*` and its path is not a side file. */
  predicate MediaMatch(sc: string, name: string) {
    GlobMatch(name, sc, "") && !EndsWithAny(Join(name), SidecarSuffixes)
  }

  /** No name of the listing has the `k`-th preferred extension. */
  predicate NoExtMatch(sc: string, listing: seq<string>, k: int)
    requires 0 <= k < |PreferredExts|
  {
    forall j :: 0 <= j < |listing| ==> !ExtMatch(sc, k, listing[j])
  }

  /** Two suffixes of one string end in the same character. */
  lemma SuffixesShareLastChar(s: string, x: string, y: string)
    requires EndsWith(s, x) && EndsWith(s, y) && |x| > 0 && |y| > 0
    ensures x[|x| - 1] == y[|y| - 1]
  {
    assert x[|x| - 1] == s[|s| - 1];
    assert y[|y| - 1] == s[|s| - 1];
  }

  lemma EndsWithJoin(name: string, x: string)
    requires EndsWith(name, x)
    ensures EndsWith(Join(name), x)
  {
    var p := Join(name);
    assert p[|p| - |x|..] == name[|name| - |x|..];
  }

  /** A name with a preferred extension is never a side file. */
  lemma ExtMatchIsMedia(sc: string, k: int, name: string)
    requires 0 <= k < |PreferredExts| && ExtMatch(sc, k, name)
    ensures MediaMatch(sc, name)
  {
    var x := "." + PreferredExts[k];
    EndsWithJoin(name, x);
    forall t | 0 <= t < |SidecarSuffixes|
      ensures !EndsWith(Join(name), SidecarSuffixes[t])
    {
      if EndsWith(Join(name), SidecarSuffixes[t]) {
        SuffixesShareLastChar(Join(name), x, SidecarSuffixes[t]);
      }
    }
    assert StartsWith(name, sc);
  }

  /** The extension loop of `download_with_instaloader` from the `k`-th extension on, then the `<sc>*` fallback. */
  function PickFrom(sc: string, listing: seq<string>, k: nat): (r: Option<string>)
    requires k <= |PreferredExts|
    ensures r.Some? ==> exists i :: 0 <= i < |listing| && r.value == listing[i] && MediaMatch(sc, listing[i])
    ensures r.None? ==> forall j :: 0 <= j < |listing| ==> !MediaMatch(sc, listing[j])
    decreases |PreferredExts| - k
  {
    if k == |PreferredExts| then
      match FirstIndex(listing, n => MediaMatch(sc, n))
      case None => None
      case Some(i) => Some(listing[i])
    else
      match FirstIndex(listing, n => ExtMatch(sc, k, n))
      case Some(i) =>
        ExtMatchIsMedia(sc, k, listing[i]);
        Some(listing[i])
      case None => PickFrom(sc, listing, k + 1)
  }

  /**
   * File discovery after `download_post`: the path of the file instaloader
   * left for shortcode `sc`, if any. A path is returned exactly when some
   * `<sc>*` entry is not a side file.
   */
  function PickInstaloaderFile(sc: string, listing: seq<string>): (r: Option<string>)
    ensures r.Some? ==> exists i :: 0 <= i < |listing| && r.value == Join(listing[i]) && MediaMatch(sc, listing[i])
    ensures r.None? <==> forall j :: 0 <= j < |listing| ==> !MediaMatch(sc, listing[j])
  {
    match PickFrom(sc, listing, 0)
    case None => None
    case Some(n) => Some(Join(n))
  }

  lemma {:induction false} PickFromPreferred(sc: string, listing: seq<string>, from: nat, k: nat, i: nat)
    requires from <= k < |PreferredExts|
    requires forall e :: from <= e < k ==> NoExtMatch(sc, listing, e)
    requires FirstWhere(listing, n => ExtMatch(sc, k, n), i)
    ensures PickFrom(sc, listing, from) == Some(listing[i])
    decreases k - from
  {
    if from == k {
      var f := FirstIndex(listing, n => ExtMatch(sc, k, n));
      assert f.Some?;
      FirstWhereUnique(listing, n => ExtMatch(sc, k, n), f.value, i);
    } else {
      assert NoExtMatch(sc, listing, from);
      assert FirstIndex(listing, n => ExtMatch(sc, from, n)).None?;
      PickFromPreferred(sc, listing, from + 1, k, i);
    }
  }

  /**
   * Extension preference: the first listed file of the first extension in
   * `mp4, jpg, jpeg, png, webp` that has any match is chosen.
   */
  lemma PreferredExtensionChosen(sc: string, listing: seq<string>, k: nat, i: nat)
    requires k < |PreferredExts|
    requires forall e :: 0 <= e < k ==> NoExtMatch(sc, listing, e)
    requires FirstWhere(listing, n => ExtMatch(sc, k, n), i)
    ensures PickInstaloaderFile(sc, listing) == Some(Join(listing[i]))
  {
    PickFromPreferred(sc, listing, 0, k, i);
  }

  lemma {:induction false} PickFromFallback(sc: string, listing: seq<string>, from: nat, i: nat)
    requires from <= |PreferredExts|
    requires forall e :: from <= e < |PreferredExts| ==> NoExtMatch(sc, listing, e)
    requires FirstWhere(listing, n => MediaMatch(sc, n), i)
    ensures PickFrom(sc, listing, from) == Some(listing[i])
    decreases |PreferredExts| - from
  {
    if from == |PreferredExts| {
      var f := FirstIndex(listing, n => MediaMatch(sc, n));
      assert f.Some?;
      FirstWhereUnique(listing, n => MediaMatch(sc, n), f.value, i);
    } else {
      assert NoExtMatch(sc, listing, from);
      assert FirstIndex(listing, n => ExtMatch(sc, from, n)).None?;
      PickFromFallback(sc, listing, from + 1, i);
    }
  }

  /**
   * Without a file of a preferred extension, the first `<sc>*` file that is
   * not a `.txt`, `.json` or `.xz` side file is chosen.
   */
  lemma MediaFallbackChosen(sc: string, listing: seq<string>, i: nat)
    requires forall e :: 0 <= e < |PreferredExts| ==> NoExtMatch(sc, listing, e)
    requires FirstWhere(listing, n => MediaMatch(sc, n), i)
    ensures PickInstaloaderFile(sc, listing) == Some(Join(listing[i]))
  {
    PickFromFallback(sc, listing, 0, i);
  }

  /**
   * The globs only fix a prefix, so a file left by a post whose shortcode
   * extends this one is taken as this post's file.
   */
  lemma LongerShortcodeFileIsTaken()
    ensures PickInstaloaderFile("abc", ["abcd.mp4", "abc.jpg"]) == Some(Join("abcd.mp4"))
  {
    var listing := ["abcd.mp4", "abc.jpg"];
    assert ExtMatch("abc", 0, listing[0]) by {
      assert listing[0][..3] == "abc";
      assert listing[0][|listing[0]| - 4..] == ".mp4";
    }
    PreferredExtensionChosen("abc", listing, 0, 0);
  }

  /** What one call of `download_with_instaloader` did: the path it returned and whether it contacted Instagram. */
  datatype InstaloaderRun = InstaloaderRun(path: Option<string>, attempted: bool)

  /**
   * `download_with_instaloader`. `fetched` says whether fetching and
   * downloading the post returned normally; every exception it names ends in
   * `None`. `listing` is the download directory as seen afterwards.
   */
  function DownloadWithInstaloader(url: string, fetched: bool, listing: seq<string>): (r: InstaloaderRun)
    ensures !r.attempted <==> ExtractShortcode(url).None? || Contains(url, "/stories/")
    ensures !r.attempted || !fetched ==> r.path.None?
    ensures r.path.Some? ==> exists i :: 0 <= i < |listing| && r.path.value == Join(listing[i])
                                        && MediaMatch(ExtractShortcode(url).value, listing[i])
    ensures r.attempted && fetched ==> r.path == PickInstaloaderFile(ExtractShortcode(url).value, listing)
  {
    var sc := ExtractShortcode(url);
    if sc.None? || sc.value == "" then
      InstaloaderRun(None, false)
    else if Contains(url, "/stories/") then
      InstaloaderRun(None, false)
    else if !fetched then
      InstaloaderRun(None, true)
    else
      InstaloaderRun(PickInstaloaderFile(sc.value, listing), true)
  }

  /**
   * Whenever instaloader is contacted, the shortcode came from a post, reel,
   * reels or tv link: story links never reach it.
   */
  lemma InstaloaderNeverSeesStories(url: string, fetched: bool, listing: seq<string>)
    requires DownloadWithInstaloader(url, fetched, listing).attempted
    ensures exists w :: Wins(url, w) && PatternOrder[w] != Story
  {
    StoryNeedsStoriesSegment(url);
    var sc := ExtractShortcode(url);
    var w :| Wins(url, w) && sc.value == CodeOf(url, w);
    assert PatternOrder[w] != Story;
  }

  /** The result of `download_instagram_content` and whether it had to call yt-dlp. */
  datatype Fetch = Fetch(path: Option<string>, usedFallback: bool)

  /**
   * The option chain of `download_instagram_content`: the first downloader's
   * path if it exists (checked in `fs1`), otherwise the second's if it exists
   * (checked in `fs2`), otherwise nothing.
   */
  function Fallback(first: Option<string>, fs1: set<string>, second: Option<string>, fs2: set<string>): (r: Fetch)
    ensures r.usedFallback <==> !Usable(first, fs1)
    ensures Usable(first, fs1) ==> r.path == first
    ensures !Usable(first, fs1) && Usable(second, fs2) ==> r.path == second
    ensures r.path.None? <==> !Usable(first, fs1) && !Usable(second, fs2)
  {
    if Usable(first, fs1) then Fetch(first, false)
    else if Usable(second, fs2) then Fetch(second, true)
    else Fetch(None, true)
  }

  /**
   * `download_instagram_content`: instaloader first, yt-dlp (whose reported
   * path is `ytdlp`) second; `fs1` and `fs2` are the files present after
   * each.
   */
  function DownloadInstagramContent(url: string, fetched: bool, listing: seq<string>, fs1: set<string>,
                                    ytdlp: Option<string>, fs2: set<string>): (r: Fetch)
    ensures r.path.Some? ==> r.path.value != "" && (r.path.value in fs1 || r.path.value in fs2)
    ensures r.path.Some? && !r.usedFallback ==> r.path.value in fs1
    ensures r.path.Some? && r.usedFallback ==> r.path.value in fs2
    ensures var first := DownloadWithInstaloader(url, fetched, listing).path;
      && (Usable(first, fs1) ==> r == Fetch(first, false))
      && (!Usable(first, fs1) ==> r == Fetch(if Usable(ytdlp, fs2) then ytdlp else None, true))
  {
    Fallback(DownloadWithInstaloader(url, fetched, listing).path, fs1, ytdlp, fs2)
  }

  /**
   * Story links skip instaloader altogether: the outcome is whatever yt-dlp
   * produced, if it exists.
   */
  lemma StoriesUseYtdlpOnly(url: string, fetched: bool, listing: seq<string>, fs1: set<string>,
                            ytdlp: Option<string>, fs2: set<string>)
    requires Contains(url, "/stories/")
    ensures DownloadInstagramContent(url, fetched, listing, fs1, ytdlp, fs2)
            == Fetch(if Usable(ytdlp, fs2) then ytdlp else None, true)
  {
  }

  /** The pieces of `os.path.splitext` on a POSIX path. */
  datatype PathParts = PathParts(root: string, ext: string)

  /** `s.rfind(c)`. */
  function LastIndexOf(s: string, c: char): (r: int)
    ensures -1 <= r < |s|
    ensures r >= 0 ==> s[r] == c
    ensures forall k :: r < k < |s| ==> s[k] != c
    decreases |s|
  {
    if |s| == 0 then -1
    else if s[|s| - 1] == c then |s| - 1
    else LastIndexOf(s[..|s| - 1], c)
  }

  /** Some character of `s[lo..hi]` is not a dot. */
  predicate HasNonDot(s: string, lo: int, hi: int)
    requires 0 <= lo && hi <= |s|
  {
    exists k :: lo <= k < hi && s[k] != '.'
  }

  /**
   * `d` is where `splitext` cuts `p`: the last dot, inside the final path
   * component and preceded in it by something other than dots.
   */
  ghost predicate ExtensionDotAt(p: string, d: int) {
    && 0 <= d < |p| && p[d] == '.'
    && (forall k :: d < k < |p| ==> p[k] != '.' && p[k] != '/')
    && exists k :: 0 <= k < d && p[k] != '.' && forall m :: k <= m < d ==> p[m] != '/'
  }

  /** `os.path.splitext(p)` (POSIX: separator `/`, no alternative separator). */
  function SplitExt(p: string): (r: PathParts)
    ensures r.root + r.ext == p
    ensures r.ext != "" <==> exists d :: ExtensionDotAt(p, d)
    ensures r.ext != "" ==> ExtensionDotAt(p, |r.root|)
  {
    var sep := LastIndexOf(p, '/');
    var dot := LastIndexOf(p, '.');
    if dot > sep && HasNonDot(p, sep + 1, dot) then
      var k :| sep + 1 <= k < dot && p[k] != '.';
      assert ExtensionDotAt(p, dot);
      PathParts(p[..dot], p[dot..])
    else
      forall d | 0 <= d < |p| && p[d] == '.' && (forall k :: d < k < |p| ==> p[k] != '.' && p[k] != '/')
        ensures forall k :: 0 <= k < d && p[k] != '.' ==> k <= sep && p[sep] == '/'
      {
        assert d == dot;
        assert sep < d;
      }
      PathParts(p, "")
  }

  /** The MP3 path `extract_reels_audio` expects: the video path without its extension, plus `_audio.mp3`. */
  function AudioPath(video: string): (a: string)
    ensures EndsWith(a, "_audio.mp3")
    ensures StartsWith(video, a[..|a| - 10])
    ensures a == SplitExt(video).root + "_audio.mp3"
  {
    var root := SplitExt(video).root;
    assert (root + "_audio.mp3")[..|root|] == root;
    root + "_audio.mp3"
  }

  /** The derived MP3 path never names the video itself, so extraction cannot overwrite its input. */
  lemma AudioPathIsNotVideo(video: string)
    ensures AudioPath(video) != video
  {
    var parts := SplitExt(video);
    var a := AudioPath(video);
    if parts.ext == "" {
      assert |a| != |video|;
    } else {
      assert video[|parts.root|] == '.';
      assert a[|parts.root|] == '_';
    }
  }

  /**
   * `extract_reels_audio`: nothing for a missing or empty video path;
   * otherwise the derived MP3 path when the extraction returned normally
   * (`extracted`) and the file exists afterwards (in `fsAfter`).
   */
  function ExtractReelsAudio(video: string, fsBefore: set<string>, extracted: bool, fsAfter: set<string>): (r: Option<string>)
    ensures r.Some? <==> video != "" && video in fsBefore && extracted && AudioPath(video) in fsAfter
    ensures r.Some? ==> r.value != video && EndsWith(r.value, "_audio.mp3")
    ensures r.Some? ==> r.value == AudioPath(video) && r.value in fsAfter
  {
    if video == "" || video !in fsBefore then None
    else if extracted && AudioPath(video) in fsAfter then
      AudioPathIsNotVideo(video);
      Some(AudioPath(video))
    else None
  }
}
