# instagram-bot: a Dafny model of the download and search decisions

The bot answers two kinds of Telegram message. For an Instagram link, it
downloads the post and sends the file back. For any other text, it searches
YouTube and offers the results as buttons. A button press downloads that
song as MP3. This project models the deterministic decisions inside
`main.py` as pure functions over strings, sequences, sets and maps, and
proves what they promise:

- `extract_shortcode` is written as an explicit scan. Each of the five
  patterns is searched for at the leftmost index where the whole expression
  matches, which may be a later occurrence of its literal. The capture is
  then a maximal character run.
- Instaloader is skipped for unusable and story links.
- Instaloader's downloaded file is chosen by extension preference, with the
  side files excluded.
- `download_instagram_content` tries instaloader, then falls back to yt-dlp.
- `extract_reels_audio` derives the `_audio.mp3` path, using POSIX
  `os.path.splitext`.
- `search_music` renders the `m:ss` duration, derives the MD5 short key and
  fills the result cache.
- `handle_music_callback` parses the callback key and looks it up in the
  cache.
- `download_music` chooses the file by audio preference.
- The handlers route messages, filter search queries and pick the send call
  by file kind.

Things outside the program's own logic become parameters:

- The two downloaders are oracles. Instaloader is a flag saying whether
  fetching and downloading the post returned normally. yt-dlp is the
  optional path or metadata it reported.
- The filesystem is a `set<string>` of existing paths. A glob result is the
  first matching name in a given `listing` of the `downloads` directory, in
  glob order.
- MD5 is a function parameter returning 32 lower-case hexadecimal digits.

The modules, in dependency order:

| File | Module | Contents |
|---|---|---|
| `wrappers.dfy` | `Wrappers` | `Option` |
| `text.dfy` | `Text` | Python string operations: `strip`, `lower`, `replace`, `endswith`, `in`, decimal rendering |
| `listing.dfy` | `Listing` | The download directory and glob matching; "first index satisfying" over a listing |
| `shortcode.dfy` | `Shortcode` | `extract_shortcode` |
| `instagram.dfy` | `Instagram` | `download_with_instaloader`, `download_instagram_content`, `extract_reels_audio` |
| `music.dfy` | `Music` | `search_music`, the music callback, `download_music` |
| `handlers.dfy` | `Handlers` | Routing, the query filter, and the media kind and delivery of `handle_instagram_link` |

## Model

| member | source | states |
|---|---|---|
| Shortcode.MatchAt | main.py:95-99 | One pattern tried at one index succeeds exactly when the regular expression can match there: the literal occurs, and either a code character follows or, for stories, a slash-free user segment, a `/` and a digit follow. Its capture is a maximal non-empty run of the captured class. For the four code patterns the capture starts right after the literal. For stories it starts just past the first `/` after the literal, and that slash ends a non-empty slash-free segment. |
| Shortcode.MatchStoryTail | main.py:99 | `[^/]+/(\d+)` matches at an index exactly when some slash ends a non-empty slash-free segment there and a digit follows it. The captured digits start just past the first `/` after the index and are a maximal run, so the greedy segment needs no backtracking. |
| Shortcode.RunLength | main.py:95-99 | A greedy `+`/`*` run: every character in it is in the class, and the character after it is not. |
| Shortcode.SearchFrom | main.py:102 | `re.search`: the result is the leftmost index where the pattern matches, with that match's capture. It is nothing exactly when the pattern matches at no index. |
| Shortcode.ExtractShortcode | main.py:92-105 | A returned shortcode is the capture of a winning pattern: the first in the order `/p/`, `/reel/`, `/reels/`, `/tv/`, `/stories/` that matches anywhere. The result is None exactly when no pattern matches. |
| Shortcode.WinnerIsExtracted | main.py:101-104 | Pattern order, not position in the URL, decides. The first pattern that matches gives the result, even when a later pattern matches earlier in the URL. |
| Shortcode.SearchShape | main.py:95-99 | Each pattern's `re.search` match starts with its literal at the leftmost matching index. The capture follows the literal directly for the code patterns, and follows the first `/` after it for stories. It is a maximal run of `[A-Za-z0-9_-]`, and of digits only for stories. |
| Shortcode.CaptureShape | main.py:95-99 | One successful try at an index: the literal is there, the capture starts where the expression puts its group, and it is a maximal run of the captured class. |
| Shortcode.ShortcodeShape | main.py:95-105 | A returned shortcode is non-empty and made of `[A-Za-z0-9_-]`. A story shortcode is decimal digits only. |
| Shortcode.StoryNeedsStoriesSegment | main.py:99 | The story pattern cannot match a URL without `/stories/`. |
| Listing.GlobMatchStar | main.py:124-129 | A name matches the glob `<prefix>*<suffix>` exactly when it is the prefix, then any middle part, then the suffix. |
| Listing.Usable | main.py:183-189 | A downloader's path is used only when it is not `None`, not empty, and exists. |
| Instagram.PickInstaloaderFile | main.py:123-137 | File discovery returns a path exactly when some `<shortcode>*` file in `downloads` is not a `.txt`, `.json` or `.xz` side file. The path returned is always such a file. |
| Instagram.PreferredExtensionChosen | main.py:123-127 | Extensions are tried in the order mp4, jpg, jpeg, png, webp. The first listed file of the first extension with any match is chosen. |
| Instagram.MediaFallbackChosen | main.py:129-134 | With no file of a preferred extension, the first `<shortcode>*` file that is not a side file is chosen. |
| Instagram.LongerShortcodeFileIsTaken | main.py:124-127 | The globs fix only a prefix. For shortcode `abc`, a file `abcd.mp4` left by another post is taken before `abc.jpg`. |
| Instagram.DownloadWithInstaloader | main.py:108-149 | Instaloader is contacted exactly when a shortcode was extracted and the URL has no `/stories/`. Otherwise, or when fetching raised, the result is None. After a normal download the result is exactly the file discovery for that shortcode, so a returned path is a discovered media file. |
| Instagram.InstaloaderNeverSeesStories | main.py:111-118 | Whenever instaloader is contacted, the shortcode came from a post, reel, reels or tv pattern. |
| Instagram.Fallback | main.py:182-194 | The instaloader path is used when it is non-empty and exists. Otherwise the yt-dlp path is used when it is non-empty and exists. Otherwise the result is None. yt-dlp is consulted exactly when the first path is unusable. |
| Instagram.DownloadInstagramContent | main.py:178-194 | The instaloader path is returned when it is non-empty and exists after instaloader ran. Otherwise yt-dlp's path is returned when it is non-empty and exists afterwards, and otherwise nothing. A returned path is never empty and always exists. |
| Instagram.StoriesUseYtdlpOnly | main.py:116-118 | For a story link the outcome is whatever usable path yt-dlp produced, whatever instaloader would have found. |
| Instagram.SplitExt | main.py:207 | `os.path.splitext` on POSIX. Root plus extension is the path. The extension is non-empty exactly when the final component has a last dot preceded by a non-dot character, and it starts at that dot. |
| Instagram.LastIndexOf | main.py:207 | `rfind`: the index of the last occurrence of the character, or -1 when there is none. |
| Instagram.AudioPath | main.py:207-208 | The MP3 path is the root that `splitext` gives for the video path, followed by `_audio.mp3`. |
| Instagram.AudioPathIsNotVideo | main.py:207-208 | The derived MP3 path is never the video path itself. |
| Instagram.ExtractReelsAudio | main.py:197-238 | Audio is returned exactly when the video path is non-empty and exists, extraction returned normally, and the derived MP3 exists afterwards. The result is then that derived path, and never the video's own path. |
| Music.FormatDuration | main.py:272-281 | A zero or missing duration renders the dash, and only it does. Otherwise the label is `mins:ss`: `mins` is the decimal rendering of `d div 60`, and `ss` is two digits that read back as `d mod 60`, so the tens digit is below 6. |
| Music.TwoDigits | main.py:279 | `{secs:02d}` is exactly two digits that read back as the number. |
| Music.DurationRoundTrip | main.py:276-281 | A label read back as `60 * mins + secs` gives the duration it was made from, and the dash reads back as no duration. |
| Text.NatToString | main.py:279 | `{mins}` is a non-empty digit string without a leading zero unless it is `0`. |
| Text.ParseNatToString | main.py:279 | Decimal rendering round-trips: reading the digits back gives the number. |
| Music.Artist | main.py:273 | The artist is the uploader when non-empty. When the uploader is missing or empty it is the channel, with a missing channel giving the empty string. |
| Music.ShortKey | main.py:284 | The callback key is the first 10 characters of the MD5 hex digest, so it is all hexadecimal digits. |
| Music.MakeSong | main.py:269-300 | Each field of a song comes from its entry, with the source's defaults: empty id, `Noma'lum` title, watch URL, the formatted duration, the uploader-or-channel artist and the MD5 key. |
| Music.Record | main.py:287-291 | The cache record rebuilds the watch URL from the video id, even when the entry had its own URL. The title and artist are the song's. |
| Music.Kept | main.py:265-267 | Entries that are `None` or an empty dictionary are skipped, and no skipped entry is kept. |
| Music.KeptAppend | main.py:265-267 | The filter keeps order: it distributes over concatenation. |
| Music.KeptKeepsUnskipped | main.py:265-267 | Every entry that is not skipped is kept, after the kept entries that precede it and before those that follow it. |
| Music.Songs | main.py:264-302 | One song per kept entry, in order. |
| Music.Remember | main.py:284-291 | Cache writes add exactly the songs' keys. Keys no song has keep their records. A key maps to the record of the last song carrying it: the canonical watch URL, title and artist. |
| Music.SearchMusic | main.py:257-305 | When yt-dlp raised or returned no entries, there are no songs and the cache is left alone. Otherwise the songs are one per kept entry, and the cache is the old one with each song's record written in order. It only grows, and every returned song's key is in it. |
| Music.HandleMusicCallback | main.py:463-474 | Data without the `music:` prefix is not routed. A key, which is the data with every `music:` removed, that is absent from the cache gives only the stale-search alert. Otherwise the cached record is downloaded. |
| Music.CallbackKey | main.py:466 | `replace("music:", "")` never lengthens the data. On button data whose key has no colon, it gives exactly the text after the prefix. |
| Music.RemovePrefixKeepsKey | main.py:466 | Removing every `music:` from the prefix followed by a colon-free key gives back the key. |
| Music.CallbackKeyRoundTrip | main.py:466 | Removing `music:` from the button data gives back any key without a colon. |
| Music.CallbackDataFits | main.py:451 | The button data is 16 characters, within the 64-byte callback limit. |
| Music.SearchThenSelect | main.py:449-474 | Pressing the button of a search result starts the download of that song's canonical URL, unless a later result of the same search carried the same key. |
| Music.Mp3Path | main.py:334 | The expected MP3 is `downloads/<id>.mp3`. It is itself a `<id>.*` file with an audio ending. |
| Music.PickMusicFile | main.py:338-351 | `<id>.mp3` is chosen when it exists. Otherwise some listed `<id>.*` file is chosen, and there is no result exactly when neither exists. |
| Music.MusicPrefersAudio | main.py:342-347 | Without the MP3, the first listed `<id>.*` file with an audio ending wins over earlier non-audio files. |
| Music.MusicFallsBackToFirst | main.py:348-349 | Without the MP3 or any audio file, the first listed `<id>.*` file is taken. |
| Music.DownloadMusic | main.py:308-356 | A failed download gives the all-None triple. Otherwise the id defaults to `unknown`. There is no file exactly when neither `<id>.mp3` nor any `<id>.*` file exists. A returned file is the audio-preferring choice for that id, and title and artist come with their defaults. |
| Music.DeliverMusic | main.py:488-510 | Audio is sent exactly when the download gave a non-empty, existing path. An empty reported title or artist falls back to the cached one. |
| Handlers.ClassifyMedia | main.py:385-407 | A three-way split on the lower-cased name: video for `.mp4`/`.mkv`/`.mov`, otherwise photo for `.jpg`/`.jpeg`/`.png`/`.webp`, otherwise document. Each case is stated as an if-and-only-if. |
| Handlers.ClassifyIgnoresCase | main.py:385 | The kind does not depend on the case of the filename. |
| Handlers.VideoByExtension | main.py:385-388 | A name ending in a video extension, in any case, is sent as a video. |
| Handlers.PhotoByExtension | main.py:404-405 | A name ending in a photo extension, in any case, is sent as a photo. |
| Handlers.FilterQuery | main.py:426-434 | The stripped text is searched unless it is shorter than 2 characters or starts with `/`. A searched query is the text with only surrounding whitespace removed. |
| Handlers.FilterQueryIgnoresPadding | main.py:426 | Surrounding whitespace never changes the decision. |
| Handlers.RouteText | main.py:373-375 | The start command greets. Any other text containing `instagram.com` is a link, and its stripped form is the URL. Every other text goes to the search filter. |
| Handlers.RouteLinkIsStable | main.py:373-375 | A link's stripped URL, routed again, is the same link: stripping keeps `instagram.com` and is idempotent. |
| Text.StripKeepsInnerText | main.py:373-375 | A substring whose ends are not whitespace survives `strip()`. |
| Handlers.PlanDelivery | main.py:381-420 | An existing, non-empty filename is sent by its kind, and anything else gets the apology. Audio is extracted exactly after a video: the `/reel/`/`/reels/` test is subsumed by `is_video`. |
| Text.Strip | main.py:375 | `strip()` removes only whitespace, and only at the ends. The result neither starts nor ends with whitespace. |
| Text.StripIdempotent | main.py:426 | Stripping twice is stripping once. |
| Text.RemoveAll | main.py:466 | `replace(x, "")` never lengthens the string and only keeps characters of it. |

## Left out

- Network and SDK plumbing is not modelled. This covers sending, editing and deleting messages, `FSInputFile`, inline keyboards, the health-check server, the keep-alive loop, `main` and asyncio scheduling. Only the decisions around them are modelled.
- The instaloader and yt-dlp calls themselves are oracles. Instaloader is a success flag. yt-dlp is the path or metadata it reported. The filesystem after each is a given set.
- `download_with_ytdlp` is represented only by the optional path it returns. Its options dictionary configures a foreign library.
- MD5 is a function parameter. Hashing is not modelled.
- check_dependencies.py is not part of this model. It only probes the environment.
- Deleting files after sending is not modelled. The model covers what is sent, not the cleanup.
- Error logging and the FFmpeg message in the exception handlers are not modelled. Every exception is the oracle's failure case.
- Durations are natural numbers. A float duration is truncated by `int()` before formatting, and a negative one is not modelled.
- `Music.FormatDuration`: a float duration strictly between 0 and 1 second is truthy, so `if duration:` at `main.py:276` holds and the source prints `0:00`. The model receives the truncated 0 and prints the dash.
- The dash shown for a missing duration is an em dash (U+2014). In `main.py:281` it appears as the three characters `‚Äî`. That is the UTF-8 encoding of the em dash read back as Mac Roman. The model uses the intended character.
- `Music.SearchMusic`: an exception in the middle of the entry loop is not modelled. For example, an entry whose `id` is present but `None` makes `video_id.encode()` at `main.py:284` raise. The source then returns `[]` but keeps the cache writes of the earlier entries. The model reads a `None` id as absent, as below, so its search either fails before any write or completes.
- `Text.IsDigit`: `\d` is taken as ASCII `0-9`. Python's `\d` on `str` also accepts other Unicode decimal digits.
- `Text.LowerChar` maps only `A-Z` and the Kelvin sign (to `k`). Other characters' lower-case forms cannot end in `.mp4`, `.mkv`, `.mov`, `.jpg`, `.jpeg`, `.png` or `.webp`, so they do not change a classification.
- Glob metacharacters inside a shortcode or video id are not modelled. Ids are matched literally as prefixes.
- Glob ordering is not modelled. It is the order of the given listing.
- A search entry whose key is present with a `None` value is modelled as absent. `title` and `url` would then be `None` in the source.
- `Music.DownloadMusic`: metadata keys present with a `None` value are modelled as absent. For a `None` id, the source looks for `downloads/None.mp3` and the glob `None.*` at `main.py:334-342`, while the model uses `unknown`. For a `None` title, the source returns `None` and the reply at `main.py:493` falls back to the cached title. The model gives `Noma'lum` instead, and `Music.DeliverMusic` sends that.
- The `CommandStart()` filter is decided by the bot library and is given as a flag.
- The truncation of button labels to 45 characters and of status titles to 50 characters only affects display text and is not modelled.
- `Text.RemoveAll` states length and character bounds only. Its exact result is pinned down through `Music.CallbackKeyRoundTrip`, for keys without a colon.
