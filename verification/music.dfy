/**
 * Music search and download: duration rendering and the result cache of
 * `search_music`, the callback that reads the cache back
 * (`handle_music_callback`), and the file choice of `download_music`.
 *
 * yt-dlp is an oracle: a search yields the list of entries it returned (or
 * nothing when it raised or returned no `entries`), a download yields the
 * metadata it reported (or nothing when it raised). MD5 is a parameter that
 * maps a video id to 32 lower-case hexadecimal digits.
 */
module Music {
  import opened Wrappers
  import opened Text
  import opened Listing

  /** The title used when the provider gives none. */
  const UnknownTitle: string := "Noma'lum"

  /** The prefix of the canonical watch URL of a video id. */
  const WatchPrefix: string := "https://www.youtube.com/watch?v="

  /** Shown instead of a duration when there is none (an em dash). */
  const NoDuration: string := "\U{2014}"

  // ---------------------------------------------------------------------------
  // Duration

  /** `f"{n:02d}"` for `n < 100`. */
  function TwoDigits(n: nat): (r: string)
    requires n < 100
    ensures |r| == 2 && AllDigits(r) && ParseDigits(r) == n
  {
    var r := [DigitChar(n / 10), DigitChar(n % 10)];
    assert r[..1] == [DigitChar(n / 10)] && r[..1][..0] == [];
    assert ParseDigits(r[..1]) == n / 10;
    r
  }

  /**
   * The duration label of a search result: `mins:ss` for a positive number
   * of seconds, the dash when the duration is zero or missing.
   */
  function FormatDuration(d: nat): (r: string)
    ensures d == 0 <==> r == NoDuration
    ensures d > 0 ==> |r| >= 4 && r[|r| - 3] == ':' && AllDigits(r[..|r| - 3]) && AllDigits(r[|r| - 2..])
    ensures d > 0 ==> DigitValue(r[|r| - 2]) < 6
    ensures d > 0 ==> ParseDigits(r[..|r| - 3]) == d / 60 && ParseDigits(r[|r| - 2..]) == d % 60
    ensures d > 0 ==> r[..|r| - 3] == NatToString(d / 60)
  {
    if d == 0 then NoDuration
    else
      var m := NatToString(d / 60);
      var r := m + ":" + TwoDigits(d % 60);
      assert r[..|r| - 3] == m;
      assert r[|r| - 2..] == TwoDigits(d % 60);
      ParseNatToString(d / 60);
      r
  }

  /** Reads a `mins:ss` label back into seconds. */
  function ParseDuration(s: string): Option<nat> {
    if |s| >= 4 && s[|s| - 3] == ':' && AllDigits(s[..|s| - 3]) && AllDigits(s[|s| - 2..]) then
      Some(60 * ParseDigits(s[..|s| - 3]) + ParseDigits(s[|s| - 2..]))
    else None
  }

  /**
   * The label is faithful: it reads back as the number of seconds it was made
   * from (so `mins * 60 + secs == d` with `secs < 60`), and the dash reads as
   * no duration.
   */
  lemma DurationRoundTrip(d: nat)
    ensures ParseDuration(FormatDuration(d)) == if d == 0 then None else Some(d)
  {
  }

  // ---------------------------------------------------------------------------
  // Search results and the cache

  /**
   * One search entry as a dictionary: each field is absent (`None`) or
   * present; `otherKeys` says whether it has keys the bot does not read.
   */
  datatype Entry = Entry(
    id: Option<string>,
    title: Option<string>,
    url: Option<string>,
    duration: Option<nat>,
    uploader: Option<string>,
    channel: Option<string>,
    otherKeys: bool)

  /** `if not entry: continue` skips `None` and the empty dictionary. */
  predicate Skipped(e: Option<Entry>) {
    e.None? || e.value == Entry(None, None, None, None, None, None, false)
  }

  /** `uploader or channel`, each defaulting to the empty string. */
  function Artist(uploader: Option<string>, channel: Option<string>): (a: string)
    ensures a == "" ==> uploader.GetOr("") == "" && channel.GetOr("") == ""
    ensures uploader.Some? && uploader.value != "" ==> a == uploader.value
    ensures uploader.GetOr("") == "" ==> a == channel.GetOr("")
  {
    var u := uploader.GetOr("");
    if u != "" then u else channel.GetOr("")
  }

  predicate IsHexDigit(c: char) {
    ('0' <= c <= '9') || ('a' <= c <= 'f')
  }

  /** `hashlib.md5(...).hexdigest()`: 32 lower-case hexadecimal digits. */
  type Digest = s: string | |s| == 32 && forall i :: 0 <= i < |s| ==> IsHexDigit(s[i])
    witness "00000000000000000000000000000000"

  /** The callback key of a video id: the first ten digits of its MD5. */
  function ShortKey(md5: string -> Digest, videoId: string): (k: string)
    ensures |k| == 10 && StartsWith(md5(videoId), k)
    ensures forall i :: 0 <= i < |k| ==> IsHexDigit(k[i])
  {
    md5(videoId)[..10]
  }

  /** One song offered to the user. */
  datatype Song = Song(title: string, url: string, duration: string, videoId: string, artist: string, key: string)

  /** What the cache keeps for a key: the canonical URL, the title and the artist. */
  datatype CacheEntry = CacheEntry(url: string, title: string, artist: string)

  type Cache = map<string, CacheEntry>

  /** The song built from one kept entry. */
  function MakeSong(e: Entry, md5: string -> Digest): (s: Song)
    ensures s.videoId == e.id.GetOr("")
    ensures s.title == e.title.GetOr(UnknownTitle)
    ensures s.url == e.url.GetOr(WatchPrefix + s.videoId)
    ensures s.duration == FormatDuration(e.duration.GetOr(0))
    ensures s.artist == Artist(e.uploader, e.channel)
    ensures |s.key| == 10 && StartsWith(md5(s.videoId), s.key)
  {
    var id := e.id.GetOr("");
    Song(e.title.GetOr(UnknownTitle), e.url.GetOr(WatchPrefix + id), FormatDuration(e.duration.GetOr(0)),
         id, Artist(e.uploader, e.channel), ShortKey(md5, id))
  }

  /** The cache record written for a song: the URL is always rebuilt from the video id. */
  function Record(s: Song): (c: CacheEntry)
    ensures c.url == WatchPrefix + s.videoId
    ensures c.title == s.title && c.artist == s.artist
  {
    CacheEntry(WatchPrefix + s.videoId, s.title, s.artist)
  }

  /** The entries that are not skipped, in order. */
  function Kept(entries: seq<Option<Entry>>): (r: seq<Entry>)
    ensures |r| <= |entries|
    ensures forall e :: e in r ==> !Skipped(Some(e))
  {
    if |entries| == 0 then []
    else if Skipped(entries[0]) then Kept(entries[1..])
    else [entries[0].value] + Kept(entries[1..])
  }

  /**
   * `Kept` is a filter that keeps order: it distributes over concatenation,
   * and a single entry is kept exactly when it is not skipped.
   */
  lemma {:induction false} KeptAppend(a: seq<Option<Entry>>, b: seq<Option<Entry>>)
    ensures Kept(a + b) == Kept(a) + Kept(b)
    decreases |a|
  {
    if |a| == 0 {
      assert a + b == b;
    } else {
      assert (a + b)[0] == a[0];
      assert (a + b)[1..] == a[1..] + b;
      KeptAppend(a[1..], b);
    }
  }

  lemma KeptSingle(e: Option<Entry>)
    ensures Kept([e]) == if Skipped(e) then [] else [e.value]
  {
    assert [e][1..] == [];
  }

  /** Every entry that is not skipped is kept, and the entries before it come first. */
  lemma KeptKeepsUnskipped(entries: seq<Option<Entry>>, i: int)
    requires 0 <= i < |entries| && !Skipped(entries[i])
    ensures Kept(entries) == Kept(entries[..i]) + [entries[i].value] + Kept(entries[i + 1..])
    ensures entries[i].value in Kept(entries)
  {
    assert entries == entries[..i] + [entries[i]] + entries[i + 1..];
    KeptAppend(entries[..i] + [entries[i]], entries[i + 1..]);
    KeptAppend(entries[..i], [entries[i]]);
    KeptSingle(entries[i]);
  }

  function Keys(songs: seq<Song>): set<string> {
    set i | 0 <= i < |songs| :: songs[i].key
  }

  /** No later song of the list carries the key of song `i`. */
  predicate LastWithKey(songs: seq<Song>, i: int)
    requires 0 <= i < |songs|
  {
    forall j :: i < j < |songs| ==> songs[j].key != songs[i].key
  }

  datatype SearchOutcome = SearchOutcome(songs: seq<Song>, cache: Cache)

  /** The songs `search_music` returns: one per entry that is not skipped, in order. */
  function Songs(entries: seq<Option<Entry>>, md5: string -> Digest): (r: seq<Song>)
    ensures |r| == |Kept(entries)|
    ensures forall i :: 0 <= i < |r| ==> r[i] == MakeSong(Kept(entries)[i], md5)
    decreases |entries|
  {
    if |entries| == 0 then []
    else if Skipped(entries[0]) then Songs(entries[1..], md5)
    else [MakeSong(entries[0].value, md5)] + Songs(entries[1..], md5)
  }

  /**
   * The cache writes of `search_music`, one per song in order: a later song
   * with the same key replaces an earlier one, other keys keep their records.
   */
  function Remember(cache: Cache, songs: seq<Song>): (c: Cache)
    ensures c.Keys == cache.Keys + Keys(songs)
    ensures forall k :: k in cache && k !in Keys(songs) ==> c[k] == cache[k]
    ensures forall i :: 0 <= i < |songs| && LastWithKey(songs, i) ==> c[songs[i].key] == Record(songs[i])
    decreases |songs|
  {
    if |songs| == 0 then cache
    else
      var s := songs[0];
      var c := Remember(cache[s.key := Record(s)], songs[1..]);
      RememberStep(cache, songs, c);
      c
  }

  /** The contract of `Remember` for a non-empty list, from the one for its tail. */
  lemma RememberStep(cache: Cache, songs: seq<Song>, c: Cache)
    requires |songs| > 0
    requires var start := cache[songs[0].key := Record(songs[0])];
      && c.Keys == start.Keys + Keys(songs[1..])
      && (forall k :: k in start && k !in Keys(songs[1..]) ==> c[k] == start[k])
      && (forall i :: 0 <= i < |songs[1..]| && LastWithKey(songs[1..], i) ==> c[songs[1..][i].key] == Record(songs[1..][i]))
    ensures c.Keys == cache.Keys + Keys(songs)
    ensures forall k :: k in cache && k !in Keys(songs) ==> c[k] == cache[k]
    ensures forall i :: 0 <= i < |songs| && LastWithKey(songs, i) ==> c[songs[i].key] == Record(songs[i])
  {
    var s := songs[0];
    var tail := songs[1..];
    var start := cache[s.key := Record(s)];
    assert songs == [s] + tail;
    ConsKeys(s, tail);
    RememberFirst(songs, start, c);
    forall i | 1 <= i < |songs| && LastWithKey(songs, i)
      ensures c[songs[i].key] == Record(songs[i])
    {
      TailLastWithKey(songs, i);
    }
  }

  /** The first song's record survives the rest of the writes when no later song has its key. */
  lemma RememberFirst(songs: seq<Song>, start: Cache, c: Cache)
    requires |songs| > 0 && songs[0].key in start && start[songs[0].key] == Record(songs[0])
    requires start.Keys <= c.Keys
    requires forall k :: k in start && k !in Keys(songs[1..]) ==> c[k] == start[k]
    ensures LastWithKey(songs, 0) ==> c[songs[0].key] == Record(songs[0])
  {
    if LastWithKey(songs, 0) {
      var tail := songs[1..];
      forall j | 0 <= j < |tail| ensures tail[j].key != songs[0].key {
        assert tail[j] == songs[j + 1];
      }
      assert songs[0].key !in Keys(tail);
    }
  }

  /** The last song with its key in a list is the last one with it in the list's tail. */
  lemma TailLastWithKey(songs: seq<Song>, i: int)
    requires 1 <= i < |songs| && LastWithKey(songs, i)
    ensures LastWithKey(songs[1..], i - 1) && songs[1..][i - 1] == songs[i]
  {
    var tail := songs[1..];
    forall j | i - 1 < j < |tail| ensures tail[j].key != tail[i - 1].key {
      assert tail[j] == songs[j + 1];
    }
  }

  lemma ConsKeys(s: Song, songs: seq<Song>)
    ensures Keys([s] + songs) == {s.key} + Keys(songs)
  {
    var all := [s] + songs;
    assert all[0].key == s.key;
    forall k | k in Keys(all) ensures k in {s.key} + Keys(songs) {
      var i :| 0 <= i < |all| && all[i].key == k;
      if i > 0 { assert songs[i - 1].key == k; }
    }
    forall k | k in Keys(songs) ensures k in Keys(all) {
      var i :| 0 <= i < |songs| && songs[i].key == k;
      assert all[i + 1].key == k;
    }
  }

  /**
   * `search_music`. `result` is the `entries` list yt-dlp returned, or
   * nothing when it raised or returned no entries; the cache is left as it
   * was in that case.
   */
  function SearchMusic(result: Option<seq<Option<Entry>>>, cache: Cache, md5: string -> Digest): (r: SearchOutcome)
    ensures result.None? ==> r == SearchOutcome([], cache)
    ensures result.Some? ==> r.songs == Songs(result.value, md5) && r.cache == Remember(cache, r.songs)
    ensures cache.Keys <= r.cache.Keys
    ensures forall i :: 0 <= i < |r.songs| ==> r.songs[i].key in r.cache
  {
    match result
    case None => SearchOutcome([], cache)
    case Some(entries) =>
      var songs := Songs(entries, md5);
      SearchOutcome(songs, Remember(cache, songs))
  }

  // ---------------------------------------------------------------------------
  // The callback

  const CallbackPrefix: string := "music:"

  /** The callback data of a song's button. */
  function CallbackData(s: Song): string {
    CallbackPrefix + s.key
  }

  /** `callback.data.replace("music:", "")`. */
  function CallbackKey(data: string): (r: string)
    ensures |r| <= |data|
    ensures StartsWith(data, CallbackPrefix) && (forall i :: |CallbackPrefix| <= i < |data| ==> data[i] != ':')
            ==> r == data[|CallbackPrefix|..]
  {
    if StartsWith(data, CallbackPrefix) && (forall i :: |CallbackPrefix| <= i < |data| ==> data[i] != ':') then
      var key := data[|CallbackPrefix|..];
      assert data == CallbackPrefix + key;
      RemovePrefixKeepsKey(key);
      RemoveAll(data, CallbackPrefix)
    else
      RemoveAll(data, CallbackPrefix)
  }

  /** `replace("music:", "")` on button data removes exactly the prefix when the key has no colon. */
  lemma RemovePrefixKeepsKey(key: string)
    requires forall i :: 0 <= i < |key| ==> key[i] != ':'
    ensures RemoveAll(CallbackPrefix + key, CallbackPrefix) == key
  {
    RemoveAllLeading(CallbackPrefix, key);
    forall i | 0 <= i <= |key|
      ensures !OccursAt(key, CallbackPrefix, i)
    {
      if i + 6 <= |key| {
        assert key[i + 5] == key[i..i + 6][5];
      }
    }
    RemoveAllNoOccurrence(key, CallbackPrefix);
  }

  datatype CallbackReply =
    | NotRouted                           // the dispatcher does not call the handler
    | StaleAlert                          // only the "search expired" alert
    | StartDownload(entry: CacheEntry)    // download the cached song

  /** `handle_music_callback` up to the download. */
  function HandleMusicCallback(data: string, cache: Cache): (r: CallbackReply)
    ensures r.NotRouted? <==> !StartsWith(data, CallbackPrefix)
    ensures r.StaleAlert? <==> StartsWith(data, CallbackPrefix) && CallbackKey(data) !in cache
    ensures r.StartDownload? ==> CallbackKey(data) in cache && r.entry == cache[CallbackKey(data)]
  {
    if !StartsWith(data, CallbackPrefix) then NotRouted
    else
      var key := CallbackKey(data);
      if key !in cache then StaleAlert else StartDownload(cache[key])
  }

  /** A key without a colon survives the prefix removal intact. */
  lemma CallbackKeyRoundTrip(key: string)
    requires forall i :: 0 <= i < |key| ==> key[i] != ':'
    ensures CallbackKey(CallbackPrefix + key) == key
  {
    var data := CallbackPrefix + key;
    assert data[|CallbackPrefix|..] == key;
  }

  /** The button data stays within the 64-byte limit of the messaging API. */
  lemma CallbackDataFits(e: Entry, md5: string -> Digest)
    ensures |CallbackData(MakeSong(e, md5))| == 16
  {
  }

  /**
   * Searching and then pressing the button of a song starts the download of
   * that song's canonical URL, unless a later result of the same search
   * carried the same key.
   */
  lemma SearchThenSelect(result: Option<seq<Option<Entry>>>, cache: Cache, md5: string -> Digest, i: int)
    requires var o := SearchMusic(result, cache, md5); 0 <= i < |o.songs| && LastWithKey(o.songs, i)
    ensures var o := SearchMusic(result, cache, md5);
      HandleMusicCallback(CallbackData(o.songs[i]), o.cache) == StartDownload(Record(o.songs[i]))
  {
    var o := SearchMusic(result, cache, md5);
    var s := o.songs[i];
    assert s == MakeSong(Kept(result.value)[i], md5);
    KeyHasNoColon(s.key);
    CallbackKeyRoundTrip(s.key);
    assert o.cache[s.key] == Record(s);
  }

  lemma KeyHasNoColon(key: string)
    requires forall j :: 0 <= j < |key| ==> IsHexDigit(key[j])
    ensures forall j :: 0 <= j < |key| ==> key[j] != ':'
  {
  }

  // ---------------------------------------------------------------------------
  // Downloading one song

  /** The metadata yt-dlp reports for a downloaded video; each field may be absent. */
  datatype MediaInfo = MediaInfo(id: Option<string>, title: Option<string>, uploader: Option<string>, channel: Option<string>)

  /** Endings that count as audio when the MP3 is missing. */
  const AudioSuffixes: seq<string> := [".mp3", ".m4a", ".opus", ".ogg", ".wav"]

  /** `name` matches the glob `<videoId>.*`. */
  predicate MusicCandidate(videoId: string, name: string) {
    GlobMatch(name, videoId + ".", "")
  }

  predicate AudioCandidate(videoId: string, name: string) {
    MusicCandidate(videoId, name) && EndsWithAny(Join(name), AudioSuffixes)
  }

  /** The MP3 that the audio post-processor writes. */
  function Mp3Path(videoId: string): (p: string)
    ensures p == Join(videoId + ".mp3")
    ensures AudioCandidate(videoId, videoId + ".mp3")
  {
    var name := videoId + ".mp3";
    var p := Join(name);
    assert name[..|videoId| + 1] == videoId + ".";
    assert name[|name|..] == "";
    assert p[|p| - 4..] == AudioSuffixes[0];
    p
  }

  /**
   * The file choice of `download_music`: the MP3 if it exists, else the first
   * `<videoId>.*` file with an audio ending, else the first `<videoId>.*`
   * file, else nothing.
   */
  function PickMusicFile(videoId: string, fs: set<string>, listing: seq<string>): (r: Option<string>)
    ensures Mp3Path(videoId) in fs ==> r == Some(Mp3Path(videoId))
    ensures r.None? <==> Mp3Path(videoId) !in fs && forall j :: 0 <= j < |listing| ==> !MusicCandidate(videoId, listing[j])
    ensures r.Some? && r.value != Mp3Path(videoId) ==>
      exists i :: 0 <= i < |listing| && r.value == Join(listing[i]) && MusicCandidate(videoId, listing[i])
  {
    if Mp3Path(videoId) in fs then Some(Mp3Path(videoId))
    else match FirstIndex(listing, n => AudioCandidate(videoId, n))
      case Some(i) => Some(Join(listing[i]))
      case None =>
        match FirstIndex(listing, n => MusicCandidate(videoId, n))
        case Some(i) => Some(Join(listing[i]))
        case None => None
  }

  /** Without the MP3, the first listed audio file is preferred over earlier non-audio files. */
  lemma MusicPrefersAudio(videoId: string, fs: set<string>, listing: seq<string>, i: int)
    requires Mp3Path(videoId) !in fs
    requires FirstWhere(listing, n => AudioCandidate(videoId, n), i)
    ensures PickMusicFile(videoId, fs, listing) == Some(Join(listing[i]))
  {
    var f := FirstIndex(listing, n => AudioCandidate(videoId, n));
    FirstWhereUnique(listing, n => AudioCandidate(videoId, n), f.value, i);
  }

  /** Without the MP3 and without any audio file, the first `<videoId>.*` file is taken. */
  lemma MusicFallsBackToFirst(videoId: string, fs: set<string>, listing: seq<string>, i: int)
    requires Mp3Path(videoId) !in fs
    requires forall j :: 0 <= j < |listing| ==> !AudioCandidate(videoId, listing[j])
    requires FirstWhere(listing, n => MusicCandidate(videoId, n), i)
    ensures PickMusicFile(videoId, fs, listing) == Some(Join(listing[i]))
  {
    var f := FirstIndex(listing, n => MusicCandidate(videoId, n));
    FirstWhereUnique(listing, n => MusicCandidate(videoId, n), f.value, i);
  }

  /** `(filepath, title, artist)`, or the all-`None` triple. */
  datatype MusicResult = NoMusic | Music(path: string, title: string, artist: string)

  /**
   * `download_music`. `info` is what yt-dlp reported, or nothing when it
   * raised; `fs` and `listing` describe the download directory afterwards.
   */
  function DownloadMusic(info: Option<MediaInfo>, fs: set<string>, listing: seq<string>): (r: MusicResult)
    ensures info.None? ==> r == NoMusic
    ensures info.Some? ==> var id := info.value.id.GetOr("unknown");
      (r.NoMusic? <==> Mp3Path(id) !in fs && forall j :: 0 <= j < |listing| ==> !MusicCandidate(id, listing[j]))
    ensures r.Music? ==> Some(r.path) == PickMusicFile(info.value.id.GetOr("unknown"), fs, listing)
    ensures r.Music? ==> && r.title == info.value.title.GetOr(UnknownTitle)
                         && r.artist == Artist(info.value.uploader, info.value.channel)
  {
    match info
    case None => NoMusic
    case Some(i) =>
      var id := i.id.GetOr("unknown");
      match PickMusicFile(id, fs, listing)
      case None => NoMusic
      case Some(p) => Music(p, i.title.GetOr(UnknownTitle), Artist(i.uploader, i.channel))
  }

  /** What the callback sends once the download is over. */
  datatype AudioReply = SendAudio(path: string, title: string, performer: string) | DownloadFailed

  /**
   * The end of `handle_music_callback`: a downloaded, existing file is sent
   * with the reported title and artist, each falling back to the cached one
   * when empty; anything else ends in the failure message.
   */
  function DeliverMusic(cached: CacheEntry, result: MusicResult, fs: set<string>): (r: AudioReply)
    ensures r.SendAudio? <==> result.Music? && Usable(Some(result.path), fs)
    ensures r.SendAudio? ==> r.path == result.path && r.path in fs
    ensures r.SendAudio? ==> r.title == (if result.title != "" then result.title else cached.title)
    ensures r.SendAudio? ==> r.performer == (if result.artist != "" then result.artist else cached.artist)
  {
    if result.Music? && Usable(Some(result.path), fs) then
      SendAudio(result.path,
                if result.title != "" then result.title else cached.title,
                if result.artist != "" then result.artist else cached.artist)
    else DownloadFailed
  }
}
