# youtube_analyzer in Dafny

A Dafny model of the logic at the core of `youtube_analyzer`, a Python library that reads
YouTube's player and playlist data. The model covers:

- **The download pre-flight and chunk loop** (`youtube_analyzer/download.py`).
  - The file-name filter.
  - Creating the output directory, building the target path, and the exists/overwrite policy.
  - The streamed write, which appends every non-empty chunk, keeps a running byte count and
    yields each chunk's length.
- **The stream catalogue** (`youtube_analyzer/adaptive_formats.py`).
  - Splitting `adaptiveFormats` and `formats` into video and audio streams by MIME type.
  - Listing the distinct resolutions and audio qualities.
  - Picking the first stream that matches a resolution or a quality.
  - The field defaults of `VideoStream` and `AudioStream`.
- **Playlist entry shaping** (`youtube_analyzer/playlists.py`).
  - `create_urls`.
  - The extraction loop of `get_videos_playlist` on the decoded `ytInitialData` document,
    with its counter and its `max` pick of the widest thumbnail.
- **Caption selection and translation** (`youtube_analyzer/captions.py`).
  - Rebuilding the translation query with a fixed key order and a conditional `kind`.
  - The refusal to translate into the same language.
  - The file name a caption download writes.
  - `CaptionsParser`: its rejections and its choice of the first track, with `srv3` turned
    into `srt`.
- **The older caption code and the playlist record** (`youtube_analyzer/parsers.py`).
  - The older rewrite, with `kind=asr` always present and no language check.
  - `get_languages`, the subtitle lookup, and the checks and file name of `download`.
  - The record `ParserPlaylist` builds.

The download code is sequential. A single streamed GET writes the target file chunk by chunk.

Modules and representations:

- There is one module per source file: `Download`, `AdaptiveFormats`, `Playlists`, `Captions`
  and `Parsers`. Small modules model the Python built-ins they rely on:
  - `Lists`: filtering, de-duplication, the first hit of a scan, and collecting a loop's
    appends.
  - `Strings`: `in`, `split`, `join` and `replace`.
  - `Numbers`: `str(int)` and `int(str)`.
  - `Paths`: `os.path.join`, `basename` and `dirname`.
  - `Json`: decoded JSON with the subscripts, `.get`, truthiness and `for` loops applied to it,
    each failing with the exception Python raises.
  - `Query`: parsed and rebuilt query strings.
  - `Wrappers`: `Option` and `Result`.
- An exception is the `Failure` of a `Result`.
- The filesystem of a download is a `FileSystem` object whose methods change its directories
  and files in place.
- An HTTP response is a given value: a body's chunks with its `Content-Length` header, a page,
  or a refused request.
- A caption URL arrives with its query already split into a key-to-values map, as `parse_qs`
  returns it. The rewritten URL is represented by its new query string.
- Python's `str()` of a list or dict is not modelled: `Json.Text` gives `""` for those. The
  core formats such values into titles and MIME prefixes.

## Model

| member | source | states |
|---|---|---|
| Download.Sanitize | youtube_analyzer/download.py:13 | the result holds no `\ / * ? : " < > \|` and is no longer than the title |
| Download.SanitizeCounts | youtube_analyzer/download.py:13 | every allowed character keeps its number of occurrences and every invalid one disappears |
| Download.SanitizeConcat | youtube_analyzer/download.py:13 | the filter works piece by piece, so the kept characters stay in their original order |
| Download.SanitizeKeepsValidName | youtube_analyzer/download.py:13 | a name without invalid characters is unchanged |
| Download.SanitizeIdempotent | youtube_analyzer/download.py:13 | filtering twice equals filtering once |
| Download.TargetPath | youtube_analyzer/download.py:62 | defines the target as `os.path.join` of the output directory and the sanitized title, a dot and the extension; `TargetPathInsideDir`, `TargetPathBaseName` and `TargetNeedsOutputDir` state its properties |
| Download.TargetPathInsideDir | youtube_analyzer/download.py:62 | the target path extends the output directory and is never the directory itself |
| Download.TargetPathBaseName | youtube_analyzer/download.py:62 | the last component of the target path is the sanitized title, a dot and the extension |
| Download.FileSystem.constructor | youtube_analyzer/download.py:55 | the filesystem starts with the given directories and files |
| Download.FileSystem.MakeDirs | youtube_analyzer/download.py:58 | `os.makedirs` adds the directory (an empty path is refused) and leaves files alone |
| Download.FileSystem.Remove | youtube_analyzer/download.py:69 | `os.remove` deletes exactly that file and fails on a directory or a missing path |
| Download.FileSystem.Create | youtube_analyzer/download.py:84 | `open(p, 'wb')` creates or empties the file, and fails on the empty path, on a directory, and on a path whose directory part is missing or is a file |
| Download.FileSystem.Append | youtube_analyzer/download.py:88 | a write appends the bytes to that file only |
| Download.DownloadVideo | youtube_analyzer/download.py:54-73 | a missing directory is created first, and an empty directory name cannot be; an existing target is refused without overwrite and removed with it, and a directory in its place cannot be removed; success returns the target path, which then does not exist, and no other file changes |
| Download.WrittenIsWholeBody | youtube_analyzer/download.py:86-88 | skipping empty chunks loses nothing: the file is the concatenation of all chunks in arrival order |
| Download.YieldsAreChunkLengths | youtube_analyzer/download.py:86-101 | the yielded values are the lengths of the non-empty chunks, in order |
| Download.WrittenLength | youtube_analyzer/download.py:85-90 | the bytes written number the sum of the yielded lengths |
| Download.YieldsPositive | youtube_analyzer/download.py:87-101 | every yielded length is positive |
| Download.ProgressIncreases | youtube_analyzer/download.py:90 | the running `downloaded` counter strictly increases from one written chunk to the next |
| Download.WriteChunk | youtube_analyzer/download.py:86-101 | one pass appends a non-empty chunk, adds its length to `downloaded`, reports it to `capture_chunks` and yields it; an empty chunk changes nothing |
| Download.WriteChunks | youtube_analyzer/download.py:84-101 | the file ends as the written bytes of all chunks; yields, captured lengths and progress are those of the non-empty chunks, and `downloaded` is the file's length |
| Download.DownloadGenerator | youtube_analyzer/download.py:75-103 | the error is, in source order: a refused request (`ConnectionError`), a Content-Length that `int()` rejects (`ValueError`; a missing header counts as 0), a target `open` refuses, with `logs` a zero total at the first non-empty chunk (`ZeroDivisionError`), a body that breaks off (`ConnectionError`), else none; only an opened target changes, and it holds the chunks the loop went through; yields, captured lengths, progress and `downloaded` are theirs, with no yield when the division raised |
| Download.OpenAndWrite | youtube_analyzer/download.py:84-101 | `open` refused leaves the files alone and reports `OpenFailed`; an opened target is emptied and then holds exactly the bytes of the chunk loop |
| Download.WriteBody | youtube_analyzer/download.py:85-101 | the loop goes through every chunk, or with `logs` and a zero total stops at the first non-empty one, which is written and counted but not yielded; the error is then `ZeroDivisionError`, else `ConnectionError` for a body that breaks off |
| Download.ZeroLengthWritesFirstChunk | youtube_analyzer/download.py:82-95 | with `logs` and a zero or missing Content-Length, an opened target ends holding exactly the first non-empty chunk, and the generator raises `ZeroDivisionError` |
| Download.FirstChunkOnly | youtube_analyzer/download.py:86-95 | up to and including the first non-empty chunk, the loop writes and yields that chunk only |
| Download.GeneratorWritesWholeBody | youtube_analyzer/download.py:84-103 | when the generator ends normally or with the body breaking off, the target holds the concatenation of all chunks |
| Download.TargetNeedsOutputDir | youtube_analyzer/download.py:62-84 | the target inside an output directory without a trailing slash can be opened exactly when that directory exists as a directory and the target is not one, so an output directory that is a file makes `open` fail |
| Download.DownloadWithLogs | youtube_analyzer/download.py:54-110 | every outcome: a missing output directory with an empty name is refused with nothing changed; an existing target without overwrite is refused before any request, and a directory in its place cannot be removed; otherwise the request is issued and the files and error are those of the generator with `logs` on, over the prepared directories and files; the lengths given to `capture_chunks` are those of the chunks the loop went through when the target was opened and `capture_chunks` is set, and none otherwise; success returns the target path holding the whole body |
| AdaptiveFormats.ToInt | youtube_analyzer/adaptive_formats.py:262-263 | `int()` keeps an integer, reads a boolean as 0 or 1, accepts a string exactly when it is a decimal integer as `Numbers.ParseInt` reads it, and raises `TypeError` on `None`, lists and dicts |
| AdaptiveFormats.AddVideo | youtube_analyzer/adaptive_formats.py:197-201 | one pass raises `TypeError` exactly when the entry's MIME type is `None`, a number or a boolean, and otherwise keeps the list equal to the distinct video entries seen so far |
| AdaptiveFormats.AddVideos | youtube_analyzer/adaptive_formats.py:196-201 | one loop appends each new entry whose MIME type contains `video/mp4` or `video/webm`; a MIME type counts as searchable when `in` can test it: a string (substring), a list (element) or a dict (key); `None`, a number or a boolean raises `TypeError`, exactly when some MIME type is unsearchable |
| AdaptiveFormats.LoadVideoStreams | youtube_analyzer/adaptive_formats.py:192-208 | the video list is the video entries of `adaptiveFormats` then `formats`, each equal entry kept once; it raises `TypeError` exactly when some MIME type is `None`, a number or a boolean (strings, lists and dicts are searched with `in`) |
| AdaptiveFormats.AddAudios | youtube_analyzer/adaptive_formats.py:213-216 | one loop appends every entry whose MIME type contains `audio/mp4` or `audio/webm`; a MIME type counts as searchable when `in` can test it: a string (substring), a list (element) or a dict (key); `None`, a number or a boolean raises `TypeError`, exactly when some MIME type is unsearchable |
| AdaptiveFormats.LoadAudioStreams | youtube_analyzer/adaptive_formats.py:210-221 | the audio list is every audio entry of `adaptiveFormats` then `formats`, repeats kept; it raises `TypeError` exactly when some MIME type is `None`, a number or a boolean |
| AdaptiveFormats.AudioStreamsKeepRepeats | youtube_analyzer/adaptive_formats.py:211-221 | each audio entry occurs in the list as often as in the input, and nothing else occurs |
| AdaptiveFormats.VideoStreamsInFirstOrder | youtube_analyzer/adaptive_formats.py:193-208 | the video list has no duplicates and keeps the order of first occurrence |
| AdaptiveFormats.NewFormatStream | youtube_analyzer/adaptive_formats.py:181-190 | construction succeeds exactly when no MIME type is `None`, a number or a boolean and `adaptiveFormats` is non-empty; otherwise the load's `TypeError` comes first, then the bare `raise` of a missing or empty list; the kept lists are the two loads' |
| AdaptiveFormats.GetResolutions | youtube_analyzer/adaptive_formats.py:223-244 | the listing is the distinct (`WxH`, MIME prefix) pairs of the qualifying streams in first-occurrence order |
| AdaptiveFormats.ResolutionsListOnceEach | youtube_analyzer/adaptive_formats.py:231-244 | no pair is listed twice and every stream with width, height and MIME type has its pair listed |
| AdaptiveFormats.ParseResolutionOfDecimal | youtube_analyzer/adaptive_formats.py:255-258 | the text `WxH` of two integers parses back to those integers |
| AdaptiveFormats.ParseResolution | youtube_analyzer/adaptive_formats.py:256 | defines the parse of the filter as a split at `x` into exactly two parts, each read by `Numbers.ParseInt`; `ParseResolutionOfDecimal` and `ParseResolutionPadded` state its round trip |
| AdaptiveFormats.ParseResolutionPadded | youtube_analyzer/adaptive_formats.py:256 | two integers written with whitespace around either one parse back to those integers |
| AdaptiveFormats.ToIntOfPaddedDecimal | youtube_analyzer/adaptive_formats.py:262-263 | `int()` of an integer's decimal text with whitespace around it gives the integer back |
| Numbers.ParseIntPadded | youtube_analyzer/adaptive_formats.py:256 | `int()` reads the decimal text of any integer back, with any leading and trailing whitespace |
| Numbers.ParseIntGrouped | youtube_analyzer/adaptive_formats.py:256 | an underscore between two digits is skipped: `a_b` reads as `ab` when both are digit groups |
| Paths.DirNameOfJoin | youtube_analyzer/download.py:62 | the directory part of `os.path.join(dir, name)`, for a slash-free name and a directory without a trailing slash, is the directory |
| AdaptiveFormats.FilterResolution | youtube_analyzer/adaptive_formats.py:246-268 | a filter that does not split at `x` into exactly two parts `int()` accepts (whitespace, a sign and single underscores allowed) raises `ValueError`; otherwise the scan returns the first stream of equal size whose MIME prefix contains `typeuri` |
| AdaptiveFormats.ScanResultOutcome | youtube_analyzer/adaptive_formats.py:261-268 | the scan gives `None` exactly when every stream reads without matching, otherwise the first match or the `int()` error of the first unreadable size |
| AdaptiveFormats.LoadVideoUri | youtube_analyzer/adaptive_formats.py:8-18 | the stream keeps exactly the 16 video fields, copied or `None` when missing |
| AdaptiveFormats.LoadAudioUri | youtube_analyzer/adaptive_formats.py:89-109 | the stream keeps exactly the 17 audio fields, copied or `''`, or `0` for the two sizes, when missing |
| AdaptiveFormats.LoadVideoUriIdempotent | youtube_analyzer/adaptive_formats.py:9-17 | loading an already loaded video stream changes nothing |
| AdaptiveFormats.LoadAudioUriIdempotent | youtube_analyzer/adaptive_formats.py:90-108 | loading an already loaded audio stream changes nothing |
| AdaptiveFormats.GetAllAudiosQuality | youtube_analyzer/adaptive_formats.py:270-284 | the listing is the distinct (quality, MIME prefix) pairs of the qualifying streams in first-occurrence order |
| AdaptiveFormats.AudioQualitiesListOnceEach | youtube_analyzer/adaptive_formats.py:273-284 | no pair is listed twice and every stream with quality and MIME type has its pair listed |
| AdaptiveFormats.FilterAudioQuality | youtube_analyzer/adaptive_formats.py:286-302 | the scan returns the first audio stream that matches |
| AdaptiveFormats.AudioQualityOutcome | youtube_analyzer/adaptive_formats.py:296-302 | the result is `None` exactly when no stream has the quality and MIME prefix, otherwise the first one that does |
| AdaptiveFormats.ListedResolutionSelectsItsStream | youtube_analyzer/adaptive_formats.py:237-267 | a listed resolution with integer sizes parses back and its stream passes the resolution filter |
| AdaptiveFormats.ListedQualitySelectsItsStream | youtube_analyzer/adaptive_formats.py:278-300 | a listed quality with its MIME prefix selects its own stream |
| Playlists.CreateUrls | youtube_analyzer/playlists.py:69-89 | the loop returns what `Urls` specifies: a non-dict video raises `AttributeError`, and each dict with a truthy `videoId` gives one entry |
| Playlists.Urls | youtube_analyzer/playlists.py:69-89 | defines what `create_urls` returns or raises, record by record; `UrlsSelect`, `UrlEntriesCopyRecords` and `UrlsBound` state its properties |
| Playlists.UrlsSelect | youtube_analyzer/playlists.py:79-87 | when every record is a dict, there is one entry per record with a truthy `videoId`, in input order; otherwise `AttributeError` |
| Playlists.UrlEntriesCopyRecords | youtube_analyzer/playlists.py:80-87 | every entry's `url` is the watch prefix plus its record's `videoId`, with `index`, `title` and `thumbnail` copied; every record with an id has its entry |
| Playlists.UrlsBound | youtube_analyzer/playlists.py:79-87 | the output is never longer than the input |
| Playlists.NoVideosKey | youtube_analyzer/playlists.py:78 | a dict without a `"videos"` key gives no records, so `create_urls` returns `[]` |
| Playlists.UrlEndsWithId | youtube_analyzer/playlists.py:76-85 | a watch link is the prefix followed exactly by the id |
| Playlists.BestAt | youtube_analyzer/playlists.py:124 | with numeric widths, `max` holds an item no narrower than any other and strictly wider than every earlier one |
| Playlists.Best | youtube_analyzer/playlists.py:124 | defines what `max` holds after each item: the item replaces the best so far only when its width is strictly greater, and a pair of widths that are not both numbers raises `TypeError`; `BestAt` and `BestSucceeds` state its properties |
| Playlists.Widest | youtube_analyzer/playlists.py:124 | defines `max(..., key=width)`: the best item, or `ValueError` on an empty list; `WidestIsFirstMaximal` and `WidestSucceeds` state its properties |
| Playlists.WidestIsFirstMaximal | youtube_analyzer/playlists.py:124 | the chosen thumbnail is the first one of maximal width |
| Playlists.BestSucceeds | youtube_analyzer/playlists.py:124 | `max` succeeds exactly when every item has a `width` and, with two or more items, every width is a number; it picks one of the items |
| Playlists.WidestSucceeds | youtube_analyzer/playlists.py:124 | `max` raises `ValueError` exactly on an empty list |
| Playlists.GetVideosPlaylist | youtube_analyzer/playlists.py:107-132 | `total` goes up exactly when an entry is appended, so the returned `total` is the number of videos; a `KeyError` gives `None` and other errors propagate |
| Playlists.AppendEntries | youtube_analyzer/playlists.py:119-128 | the inner loop over one list raises the first read error, and otherwise appends exactly the kept entries, counting each in `total` |
| Playlists.Extracted | youtube_analyzer/playlists.py:107-128 | defines everything the two loops append, or the first exception of the `try` block; `ExtractedAreKept` and `ReadVideoThumbnail` state its properties |
| Playlists.ExtractedAreKept | youtube_analyzer/playlists.py:125-128 | every returned entry has a truthy `videoId` and title |
| Playlists.ReadVideoThumbnail | youtube_analyzer/playlists.py:120-128 | an entry's thumbnail is the `max` pick of its own thumbnails, and its index its position in its list |
| Captions.OrderedParamsFields | youtube_analyzer/captions.py:146-174 | the dict display has 27 entries, the copied values in their places, `fmt=srt`, the requested `tlang` and no `kind` |
| Captions.TranslationParamsShape | youtube_analyzer/captions.py:136-178 | `v`, `ei`, `hl`, `expire`, `signature` and `lang` are copied or default to `""`; `fmt` is `srt`; `tlang` is the requested language; `kind` is appended last exactly when the source URL carried it |
| Captions.ConvertUrl | youtube_analyzer/captions.py:129-187 | defines the rewrite: the new query string of the ordered parameters, or `TranslationNotRequiredError` when the source `lang` is `tlang`; `ConvertUrlRefuses` and `ConvertUrlReadsBack` state its properties |
| Captions.ConvertUrlRefuses | youtube_analyzer/captions.py:185-186 | the rewrite raises `TranslationNotRequiredError` exactly when the source `lang` equals `tlang` |
| Captions.ConvertUrlReadsBack | youtube_analyzer/captions.py:181 | the new query splits at `&` into one `key=value` part per parameter, in the dict's order |
| Captions.Translate | youtube_analyzer/captions.py:116-126 | defines `translate`: a caption with code `tlang` at the rewritten URL, or the rewrite's refusal; `TranslatedCaptionFile` states its properties |
| Captions.DownloadPath | youtube_analyzer/captions.py:40-63 | defines the checks of `Caption.download` in source order and the path it writes; `CaptionDownloadChecks` states its properties |
| Captions.TranslatedCaptionFile | youtube_analyzer/captions.py:116-126 | a translation yields a caption whose `lang` is `tlang`, and downloading it writes `<tlang>.srt` inside the output directory |
| Captions.CaptionDownloadChecks | youtube_analyzer/captions.py:47-63 | a missing directory raises `TypeError` and a missing URL raises before the request; a refused request and a 404 page are refused; the download goes through exactly when none of these holds; success writes `lang + ".srt"` in the directory |
| Captions.NewCaptionsParser | youtube_analyzer/captions.py:191-196 | construction fails with `NotCaptions` exactly on `None` or `'Not Captions'` |
| Captions.GetCaptionForVideo | youtube_analyzer/captions.py:198-212 | the loop returns what `CaptionFor` specifies: `'Not Legend'` raises `NotCaptions`, and one dict per track is built with the first becoming the caption |
| Captions.NoSrv3Left | youtube_analyzer/captions.py:208 | after replacing `srv3` with `srt` no `srv3` remains |
| Captions.CaptionIsFirstTrack | youtube_analyzer/captions.py:204-211 | the caption is the first track's code, and its URL is the first track's `baseUrl` with every `srv3` replaced by `srt` |
| Captions.CaptionForRejects | youtube_analyzer/captions.py:201-202 | `'Not Legend'` raises `NotCaptions` and an empty track list raises `IndexError` |
| Parsers.OldParamShift | youtube_analyzer/parsers.py:84-113 | entry by entry, the older dict is the newer one with `kind=asr` inserted before `lang` |
| Parsers.OldParamsInsertKind | youtube_analyzer/parsers.py:84-113 | the older dict equals the newer dict with `("kind", "asr")` inserted between `key` and `lang` |
| Parsers.OldParamsFields | youtube_analyzer/parsers.py:84-113 | the older dict has 28 entries: `kind=asr` 14th, then `lang`, `fmt=srt` and, 20th, `tlang` |
| Parsers.ConvertUrlOldReadsBack | youtube_analyzer/parsers.py:114 | the older query splits into 28 parts with `kind=asr`, the copied `lang`, `fmt=srt` and the requested `tlang` in their places |
| Parsers.ConvertUrlOld | youtube_analyzer/parsers.py:68-116 | defines the older rewrite as the query string of the older parameters, for any source language; `ConvertUrlOldReadsBack` and `OldRewritesSameLanguage` state its properties |
| Parsers.OldRewritesSameLanguage | youtube_analyzer/parsers.py:68-116 | where the newer rewrite refuses a same-language translation, the older one builds a query with `lang` and `tlang` both that language |
| Parsers.NewCaptionsParser | youtube_analyzer/parsers.py:120-123 | construction fails exactly on `None` or `'Not Captions'` |
| Parsers.GetLanguages | youtube_analyzer/parsers.py:126-139 | the loop returns what `Languages` specifies: the sentinel on `'Not Legend'`, otherwise one dict per track |
| Parsers.LanguagesPerTrack | youtube_analyzer/parsers.py:132-138 | one `{lang, code, url}` dict per track, in order, holding the track's `name.runs[0].text`, `languageCode` and `baseUrl` |
| Parsers.LanguagesSentinel | youtube_analyzer/parsers.py:129-130 | `'Not Legend'` gives `[{'caption': 'Not Captions'}]` |
| Parsers.SubtitleUrl | youtube_analyzer/parsers.py:151-156 | the search loop returns what `SubtitleUrlOf` specifies |
| Parsers.SubtitleUrlIsFirstMatch | youtube_analyzer/parsers.py:151-156 | the lookup gives `None` when the loop goes past every track; at the first track it does not go past, it gives that track's `baseUrl` when the code matches, and raises `KeyError` (the `languageCode` lookup's error) when the track has none |
| Parsers.SubtitleUrlFound | youtube_analyzer/parsers.py:153-155 | a URL the lookup found belongs to a track with the requested code |
| Parsers.SelectFileName | youtube_analyzer/parsers.py:170-173 | the name loop returns what `FileNameOf` specifies |
| Parsers.FileNameFails | youtube_analyzer/parsers.py:171-172 | an item without `code` makes the loop raise `KeyError` |
| Parsers.FileNameDefault | youtube_analyzer/parsers.py:170-173 | when every item has a `code`, the loop does not raise, and the name stays `'captions_video'` when none matches |
| Parsers.LastMatch | youtube_analyzer/parsers.py:170-173 | the name is the `lang` of the last item with the requested code |
| Parsers.DownloadTarget | youtube_analyzer/parsers.py:158-185 | the method runs the checks and lookups in source order and returns what `DownloadOf` specifies |
| Parsers.DownloadOf | youtube_analyzer/parsers.py:158-185 | defines the older `download`'s checks and lookups in source order and the path it writes; `DownloadRefusesBeforeRequest` and `DownloadNamesFileAfterLanguage` state its properties |
| Parsers.DownloadRefusesBeforeRequest | youtube_analyzer/parsers.py:166-176 | a missing directory raises `TypeError`, and a code no track has raises `YoutubeAnalyzerExceptions`, whatever the response |
| Parsers.DownloadNamesFileAfterLanguage | youtube_analyzer/parsers.py:168-185 | a download that goes through writes, in the output directory, a file named after the `lang` of the last language entry with the code |
| Parsers.GetPlaylistInfo | youtube_analyzer/parsers.py:400-424 | `None` gives the fixed record (count 0, private, no videos); otherwise one video per watch link, titled `index.title`, and `count` is the number of videos |
| Parsers.UrlEntryOfVideo | youtube_analyzer/playlists.py:80-86 | `create_urls` reads a `for_ids` dict back into its index, title, link and thumbnail |
| Parsers.PlaylistLinksEveryVideo | youtube_analyzer/parsers.py:405-418 | on a playlist `get_videos_playlist` returned, there is one watch link per video, in order, titled `index.title`; so the record's `count` is the number of videos, which `Playlists.GetVideosPlaylist` shows equals `total` |

## Left out

- HTTP traffic is left out and becomes given inputs. This covers every `requests.get`/`post`, `raise_for_status` and `iter_content` (modelled as a given list of chunks), and the player request of `Captions`/`VideoParser` in parsers.py.
- HTML scraping and JSON decoding are left out: `BeautifulSoup`, the `ytInitialData` extraction and `json.loads`, and `extract_meta_og_*`. The playlist model starts from the decoded document, and the scraped title, description and image are parameters.
- `urlparse`, `parse_qs` and `urlunparse` are library calls. The source query is a given map, and only the rebuilt query string is modelled, not the unchanged scheme, host and path around it.
- The emoji removal of `sanitize_filename` calls the `emoji` library. Only the character filter is modelled.
- Floating point and time are left out: `format_bytes`, the percentage display of the download loop, `timestamp`, and `time.sleep`.
- The logging output of `debug` and `sys.stdout` is left out.
- `Caption._transcribe` and `transcript`, which depend on regex semantics, are left out. So is `Caption.content` (HTTP).
- The chunk writing of caption downloads is not modelled again. It is the loop of `Download.WriteChunks` with a different buffer size. The caption models stop at the path written.
- The older `TradutionCaptions.translate`, `TradutionCaptions.download` and `CaptionsParser.translate_caption` in parsers.py are thin wrappers around the modelled rewrite and HTTP. They are not modelled.
- The `dts` dict of `get_videos_playlist` is written but never returned, so it is not modelled.
- The `if not data` test at playlists.py:113 cannot fire, because `data` was just subscripted. It is not modelled.
- The CLI (yt_downloader.py), api.py, utils.py, exeptions.py and the example script are not part of this model.
- The module-level `os.makedirs` of download.py:29-30 runs at import time and is not modelled.
- Playlists.Best: `max` compares widths only when both are numbers (booleans count as 0/1). Any other pair is modelled as `TypeError`, although Python would also order two strings or two lists.
- Json.Text: `str()` of a list or dict gives `""` instead of Python's repr. It affects titles built from such values and the MIME prefix of a stream whose MIME type is a list or dict, which then contains only the empty `typeuri`.
- Parsers.DownloadOf: any `lang` that is not a string is modelled as `TypeError` from `os.path.join`, which is what Python raises for `None`, numbers, booleans, lists and dicts.
- Download.DownloadGenerator: the exceptions `requests`, `os.makedirs`, `os.remove` and `open` raise are reported as error values, not as Python exception classes. The exception text and the `logs` output before the division are not modelled.
- Download.FileSystem: paths are compared as text, with no normalisation of `.`, `..` or repeated slashes. `makedirs` adds only the named directory; missing intermediate directories and an ancestor that is a file are not modelled.
- AdaptiveFormats.ToInt: `int()` of a string accepts only ASCII whitespace and ASCII digits; Python also accepts other Unicode whitespace and digits.
- AdaptiveFormats.FilterResolution: its parse of the filter has the same ASCII restriction as `AdaptiveFormats.ToInt`.
- AdaptiveFormats.NewFormatStream: a stream entry that is not a dict, which raises `AttributeError` at `i.get`, is not modelled, because entries are records. An `adaptiveFormats` that is present but `null` reads as absent (`[]`, the bare `raise`), whereas Python raises `TypeError` when iterating `None`. A `streamingData` that is not a dict, such as the `'Not Streams'` string parsers.py:381 passes when the player has no streams, makes `.get` raise `AttributeError`; `StreamingData` holds the two optional lists and cannot represent it.
- Json.Value: numbers are integers only, so JSON floats (the `loudnessDb` field an audio stream copies, a fractional `width` that `int()` truncates) are not represented. Values compare structurally, whereas Python's `==` also equates `1`, `1.0` and `True` across types; the `in` tests of the de-duplicating loops are where this shows.
- AdaptiveFormats.AddVideo: the test `item !in formats` is structural equality. Python's `not i in add` also treats as present an entry that differs only by cross-type equal numbers (`{"itag": 1}` after `{"itag": true}`), which the model keeps as a second entry.
- AdaptiveFormats.AddVideos: its de-duplication has the same structural equality as `AdaptiveFormats.AddVideo`.
- AdaptiveFormats.LoadVideoStreams: its list is de-duplicated with the structural equality of `AdaptiveFormats.AddVideo`, so it can keep two entries Python's `==` equates.
- AdaptiveFormats.GetAllAudiosQuality: each listed pair holds the raw `audioQuality` value, and `dt in add` is modelled by structural equality, so two qualities Python's `==` equates across types (`1` and `True`) are listed twice.
