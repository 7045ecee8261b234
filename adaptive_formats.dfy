/**
  youtube_analyzer/adaptive_formats.py: the stream catalogue of a video. `FormatStream` splits
  the `adaptiveFormats` and `formats` entries of the player's `streamingData` into video and
  audio streams by MIME type, lists the available resolutions and audio qualities, and picks
  the first stream that matches one; `VideoStream` and `AudioStream` keep a fixed set of fields
  of the chosen entry.
 */
module AdaptiveFormats {
  import opened Wrappers
  import Lists
  import Strings
  import Numbers
  import Json

  /** One entry of `adaptiveFormats` or `formats`: a decoded JSON object. */
  type Record = map<string, Json.Value>

  datatype Error =
    | TypeError          // `in` on a MIME type that is None, a number or a boolean, or `int()` of None, a list or an object
    | ValueError         // `int(s)` of a string that is not a decimal integer
    | NoAdaptiveFormats  // the bare `raise` of the constructor
    | InvalidResolution  // the ValueError for a filter that is not "WIDTHxHEIGHT"

  /** Python's `int(v)`. */
  function ToInt(v: Json.Value): (r: Result<int, Error>)
    ensures v.Num? ==> r == Success(v.n)
    ensures v.Null? || v.Arr? || v.Obj? ==> r == Failure(TypeError)
    ensures v.Bool? ==> r == Success(if v.b then 1 else 0)
    ensures v.Str? ==> (r.Success? <==> Numbers.ParseInt(v.s).Some?)
  {
    if v.Bool? then Success(if v.b then 1 else 0)
    else if v.Num? then Success(v.n)
    else if v.Str? then
      if Numbers.ParseInt(v.s).Some? then Success(Numbers.ParseInt(v.s).value) else Failure(ValueError)
    else Failure(TypeError)
  }

  /** `i.get("mimeType", None)`. */
  function MimeType(r: Record): Json.Value {
    Json.Field(r, "mimeType", Json.Null)
  }

  /** `str(mimeType).split(';')[0]`: the MIME type without its codec parameters. */
  function MimePrefix(mime: Json.Value): string {
    Strings.BeforeFirst(Json.Text(mime), ';')
  }

  /**
    `needle in mimeType` answered `True`. The `in` test looks for a substring of a string, an
    item of a list and a key of an object.
   */
  predicate MimeHas(r: Record, needle: string) {
    Json.Contains(MimeType(r), needle) == Success(true)
  }

  /**
    The `in` tests of the loaders can be asked of the entry's MIME type: it is a string, a list
    or an object. `None` (a missing `mimeType`), numbers and booleans raise TypeError.
   */
  predicate HasSearchableMime(r: Record) {
    MimeType(r).Str? || MimeType(r).Arr? || MimeType(r).Obj?
  }

  predicate AllSearchableMimes(rs: seq<Record>) {
    forall i :: 0 <= i < |rs| ==> HasSearchableMime(rs[i])
  }

  lemma SearchableMimesSnoc(rs: seq<Record>, r: Record)
    requires AllSearchableMimes(rs) && HasSearchableMime(r)
    ensures AllSearchableMimes(rs + [r])
  {
    assert forall i :: 0 <= i < |rs| ==> (rs + [r])[i] == rs[i];
  }

  lemma SearchableMimesOfSuffix(a: seq<Record>, b: seq<Record>)
    requires AllSearchableMimes(a + b)
    ensures AllSearchableMimes(b)
  {
    assert forall i :: 0 <= i < |b| ==> b[i] == (a + b)[|a| + i];
  }

  /** `'video/mp4' in mimeType or 'video/webm' in mimeType`. */
  predicate IsVideo(r: Record) {
    MimeHas(r, "video/mp4") || MimeHas(r, "video/webm")
  }

  /** `'audio/mp4' in mimeType or 'audio/webm' in mimeType`. */
  predicate IsAudio(r: Record) {
    MimeHas(r, "audio/mp4") || MimeHas(r, "audio/webm")
  }

  /**
    One pass of a video loop: the `in` tests on the entry's MIME type, then the append of a video
    entry that is not in the list yet.
   */
  method AddVideo(ghost seen: seq<Record>, formats: seq<Record>, item: Record) returns (r: Result<seq<Record>, Error>)
    requires formats == Lists.Dedup(Lists.Filter(IsVideo, seen))
    ensures r.Failure? <==> !HasSearchableMime(item)
    ensures r.Failure? ==> r.error == TypeError
    ensures r.Success? ==> r.value == Lists.Dedup(Lists.Filter(IsVideo, seen + [item]))
  {
    var mimeType := MimeType(item);
    var mp4 := Json.Contains(mimeType, "video/mp4");
    if mp4.Failure? {
      return Failure(TypeError);
    }
    Lists.DedupFilterSnoc(IsVideo, seen, item);
    if (mp4.value || Json.Contains(mimeType, "video/webm") == Success(true)) && item !in formats {
      return Success(formats + [item]);
    }
    r := Success(formats);
  }

  /**
    One `for i in ...` loop of `__load_videos_streams`: append each video entry of `items` that
    is not in the list yet. `before` holds the entries earlier loops went through.
   */
  method AddVideos(before: seq<Record>, found: seq<Record>, items: seq<Record>) returns (r: Result<seq<Record>, Error>)
    requires AllSearchableMimes(before) && found == Lists.Dedup(Lists.Filter(IsVideo, before))
    ensures r.Failure? <==> !AllSearchableMimes(items)
    ensures r.Failure? ==> r.error == TypeError
    ensures r.Success? ==> r.value == Lists.Dedup(Lists.Filter(IsVideo, before + items))
  {
    var formats := found;
    var i := 0;
    ghost var seen := before;
    Lists.AppendTake(before, items, 0);
    while i < |items|
      invariant 0 <= i <= |items|
      invariant seen == before + items[..i]
      invariant AllSearchableMimes(seen)
      invariant formats == Lists.Dedup(Lists.Filter(IsVideo, seen))
    {
      var next := AddVideo(seen, formats, items[i]);
      if next.Failure? {
        return next;
      }
      Lists.AppendTake(before, items, i);
      SearchableMimesSnoc(seen, items[i]);
      seen, formats := seen + [items[i]], next.value;
      i := i + 1;
    }
    Lists.AppendTake(before, items, i);
    SearchableMimesOfSuffix(before, items);
    r := Success(formats);
  }

  /**
    `__load_videos_streams`: the video entries of `adaptiveFormats`, then those of `formats`,
    each equal entry kept only at its first occurrence.
   */
  method LoadVideoStreams(adaptive: seq<Record>, formats: seq<Record>) returns (r: Result<seq<Record>, Error>)
    ensures r.Failure? <==> !AllSearchableMimes(adaptive + formats)
    ensures r.Failure? ==> r.error == TypeError
    ensures r.Success? ==> r.value == Lists.Dedup(Lists.Filter(IsVideo, adaptive + formats))
  {
    assert [] + adaptive == adaptive;
    var fromAdaptive := AddVideos([], [], adaptive);
    if fromAdaptive.Failure? {
      assert !HasSearchableMime((adaptive + formats)[FailingIndex(adaptive)]);
      return fromAdaptive;
    }
    r := AddVideos(adaptive, fromAdaptive.value, formats);
    if r.Failure? {
      assert !HasSearchableMime((adaptive + formats)[|adaptive| + FailingIndex(formats)]);
    }
  }

  /** The position of an entry whose MIME type the `in` test cannot search. */
  function FailingIndex(rs: seq<Record>): (k: nat)
    requires !AllSearchableMimes(rs)
    ensures k < |rs| && !HasSearchableMime(rs[k])
  {
    if !HasSearchableMime(rs[0]) then 0 else 1 + FailingIndex(rs[1..])
  }

  /** One `for i in ...` loop of `__load_audio_streams`: append each audio entry of `items`. */
  method AddAudios(before: seq<Record>, found: seq<Record>, items: seq<Record>) returns (r: Result<seq<Record>, Error>)
    requires AllSearchableMimes(before) && found == Lists.Filter(IsAudio, before)
    ensures r.Failure? <==> !AllSearchableMimes(items)
    ensures r.Failure? ==> r.error == TypeError
    ensures r.Success? ==> r.value == Lists.Filter(IsAudio, before + items)
  {
    var formats := found;
    var i := 0;
    ghost var seen := before;
    Lists.AppendTake(before, items, 0);
    while i < |items|
      invariant 0 <= i <= |items|
      invariant seen == before + items[..i]
      invariant AllSearchableMimes(seen)
      invariant formats == Lists.Filter(IsAudio, seen)
    {
      var item := items[i];
      var mimeType := MimeType(item);
      var mp4 := Json.Contains(mimeType, "audio/mp4");
      if mp4.Failure? {
        return Failure(TypeError);
      }
      Lists.FilterSnoc(IsAudio, seen, item);
      Lists.AppendTake(before, items, i);
      SearchableMimesSnoc(seen, item);
      seen := seen + [item];
      if mp4.value || Json.Contains(mimeType, "audio/webm") == Success(true) {
        formats := formats + [item];
      }
      i := i + 1;
    }
    Lists.AppendTake(before, items, i);
    SearchableMimesOfSuffix(before, items);
    r := Success(formats);
  }

  /** `__load_audio_streams`: the audio entries of `adaptiveFormats`, then those of `formats`, repeats kept. */
  method LoadAudioStreams(adaptive: seq<Record>, formats: seq<Record>) returns (r: Result<seq<Record>, Error>)
    ensures r.Failure? <==> !AllSearchableMimes(adaptive + formats)
    ensures r.Failure? ==> r.error == TypeError
    ensures r.Success? ==> r.value == Lists.Filter(IsAudio, adaptive + formats)
  {
    assert [] + adaptive == adaptive;
    var fromAdaptive := AddAudios([], [], adaptive);
    if fromAdaptive.Failure? {
      assert !HasSearchableMime((adaptive + formats)[FailingIndex(adaptive)]);
      return fromAdaptive;
    }
    r := AddAudios(adaptive, fromAdaptive.value, formats);
    if r.Failure? {
      assert !HasSearchableMime((adaptive + formats)[|adaptive| + FailingIndex(formats)]);
    }
  }

  /** The audio list keeps every audio entry as often as it occurs and nothing else. */
  lemma AudioStreamsKeepRepeats(all: seq<Record>, x: Record)
    ensures multiset(Lists.Filter(IsAudio, all))[x] == if IsAudio(x) then multiset(all)[x] else 0
  {
    Lists.FilterCount(IsAudio, all, x);
  }

  /** The video list holds each video entry once, in the order of first occurrence. */
  lemma VideoStreamsInFirstOrder(all: seq<Record>)
    ensures Lists.NoDuplicates(Lists.Dedup(Lists.Filter(IsVideo, all)))
    ensures var f := Lists.Filter(IsVideo, all);
            forall i, j :: 0 <= i < j < |Lists.Dedup(f)| ==>
              Lists.Dedup(f)[i] in f && Lists.Dedup(f)[j] in f &&
              Lists.FirstIndex(f, Lists.Dedup(f)[i]) < Lists.FirstIndex(f, Lists.Dedup(f)[j])
  {
    Lists.DedupMembers(Lists.Filter(IsVideo, all));
    Lists.DedupOrder(Lists.Filter(IsVideo, all));
  }

  /** `streamingData`: either list may be absent. */
  datatype StreamingData = StreamingData(adaptiveFormats: Option<seq<Record>>, formats: Option<seq<Record>>)

  /** `data.get(key, [])`. */
  function EntriesOr(o: Option<seq<Record>>): seq<Record> {
    if o.Some? then o.value else []
  }

  /** The catalogue the constructor keeps: the loaded video and audio lists. */
  datatype FormatStream = FormatStream(videos: seq<Record>, audios: seq<Record>)

  /**
    `FormatStream.__init__`: load both lists (either load raises TypeError on an unsearchable
    MIME type), then raise when `adaptiveFormats` is missing or empty.
   */
  method NewFormatStream(data: StreamingData) returns (r: Result<FormatStream, Error>)
    ensures var adaptive, formats := EntriesOr(data.adaptiveFormats), EntriesOr(data.formats);
            && (r.Success? <==> AllSearchableMimes(adaptive + formats) && adaptive != [])
            && (r.Failure? ==> r.error == if AllSearchableMimes(adaptive + formats) then NoAdaptiveFormats else TypeError)
            && (r.Success? ==>
                  && r.value.videos == Lists.Dedup(Lists.Filter(IsVideo, adaptive + formats))
                  && r.value.audios == Lists.Filter(IsAudio, adaptive + formats))
  {
    var adaptive := EntriesOr(data.adaptiveFormats);
    var formats := EntriesOr(data.formats);
    var videos :- LoadVideoStreams(adaptive, formats);
    // The audio load tests the same MIME types, so it cannot raise once the video load did not.
    var audios := LoadAudioStreams(adaptive, formats);
    if audios.Failure? {
      assert false;
    }
    if adaptive == [] {
      return Failure(NoAdaptiveFormats);
    }
    r := Success(FormatStream(videos, audios.value));
  }

  /** One entry of `get_resolutions`: `{"resolution": "WxH", "typeUri": <MIME prefix>}`. */
  datatype ResolutionEntry = ResolutionEntry(resolution: string, typeUri: string)

  /** A stream `get_resolutions` lists: truthy width, height and mimeType. */
  predicate HasResolution(v: Record) {
    Json.Truthy(Json.Field(v, "width", Json.Null)) && Json.Truthy(Json.Field(v, "height", Json.Null)) && Json.Truthy(MimeType(v))
  }

  function ResolutionOf(v: Record): ResolutionEntry {
    ResolutionEntry(Json.Text(Json.Field(v, "width", Json.Null)) + "x" + Json.Text(Json.Field(v, "height", Json.Null)), MimePrefix(MimeType(v)))
  }

  /** `get_resolutions`: each distinct (resolution, MIME prefix) pair once, in first-occurrence order. */
  method GetResolutions(fs: FormatStream) returns (resolutions: seq<ResolutionEntry>)
    ensures resolutions == Lists.Dedup(Lists.Map(ResolutionOf, Lists.Filter(HasResolution, fs.videos)))
  {
    resolutions := Lists.CollectDistinct(HasResolution, ResolutionOf, fs.videos);
  }

  /** The listing holds no entry twice, and every stream that qualifies has its resolution listed. */
  lemma ResolutionsListOnceEach(streams: seq<Record>)
    ensures var listed := Lists.Dedup(Lists.Map(ResolutionOf, Lists.Filter(HasResolution, streams)));
            && Lists.NoDuplicates(listed)
            && forall i :: 0 <= i < |streams| && HasResolution(streams[i]) ==> ResolutionOf(streams[i]) in listed
  {
    Lists.DedupMapFilterCovers(HasResolution, ResolutionOf, streams);
  }

  /** `map(int, s.split('x'))` unpacked into two names: exactly two parts, both integers. */
  function ParseResolution(s: string): Option<(int, int)> {
    var parts := Strings.Split(s, 'x');
    if |parts| == 2 && Numbers.ParseInt(parts[0]).Some? && Numbers.ParseInt(parts[1]).Some? then
      Some((Numbers.ParseInt(parts[0]).value, Numbers.ParseInt(parts[1]).value))
    else
      None
  }

  /** Any pair of integers written as "WxH" reads back as that pair. */
  lemma ParseResolutionOfDecimal(w: int, h: int)
    ensures ParseResolution(Numbers.IntToDecimal(w) + "x" + Numbers.IntToDecimal(h)) == Some((w, h))
  {
    var a, b := Numbers.IntToDecimal(w), Numbers.IntToDecimal(h);
    forall c | c in a ensures c != 'x' {
      Numbers.DecimalCharacters(w, c);
    }
    forall c | c in b ensures c != 'x' {
      Numbers.DecimalCharacters(h, c);
    }
    assert Strings.Join([a, b], 'x') == a + "x" + b;
    Strings.SplitJoin([a, b], 'x');
    Numbers.ParseIntOfDecimal(w);
    Numbers.ParseIntOfDecimal(h);
  }

  /** `int()` of a string holding an integer's decimal text, with any whitespace around it. */
  lemma ToIntOfPaddedDecimal(n: int, pre: string, post: string)
    requires Numbers.AllSpaces(pre) && Numbers.AllSpaces(post)
    ensures ToInt(Json.Str(pre + Numbers.IntToDecimal(n) + post)) == Success(n)
  {
    Numbers.ParseIntPadded(n, pre, post);
  }

  /** Whitespace around either number is accepted too: `"1920 x 1080"` parses as `"1920x1080"`. */
  lemma ParseResolutionPadded(w: int, h: int, p1: string, p2: string, p3: string, p4: string)
    requires Numbers.AllSpaces(p1) && Numbers.AllSpaces(p2) && Numbers.AllSpaces(p3) && Numbers.AllSpaces(p4)
    ensures ParseResolution(p1 + Numbers.IntToDecimal(w) + p2 + "x" + p3 + Numbers.IntToDecimal(h) + p4) == Some((w, h))
  {
    var a, b := p1 + Numbers.IntToDecimal(w) + p2, p3 + Numbers.IntToDecimal(h) + p4;
    PaddedHasNoX(w, p1, p2);
    PaddedHasNoX(h, p3, p4);
    assert Strings.Join([a, b], 'x') == a + "x" + b;
    assert a + "x" + b == p1 + Numbers.IntToDecimal(w) + p2 + "x" + p3 + Numbers.IntToDecimal(h) + p4;
    Strings.SplitJoin([a, b], 'x');
    Numbers.ParseIntPadded(w, p1, p2);
    Numbers.ParseIntPadded(h, p3, p4);
  }

  /** A decimal integer with whitespace around it holds no `x`, so the split leaves it whole. */
  lemma PaddedHasNoX(n: int, pre: string, post: string)
    requires Numbers.AllSpaces(pre) && Numbers.AllSpaces(post)
    ensures 'x' !in pre + Numbers.IntToDecimal(n) + post
  {
    forall c | c in pre + Numbers.IntToDecimal(n) + post ensures c != 'x' {
      if c in Numbers.IntToDecimal(n) {
        Numbers.DecimalCharacters(n, c);
      }
    }
  }

  /** `int(stream_data.get('width', 0))` and the same for the height. */
  function StreamWidth(v: Record): Result<int, Error> {
    ToInt(Json.Field(v, "width", Json.Num(0)))
  }

  function StreamHeight(v: Record): Result<int, Error> {
    ToInt(Json.Field(v, "height", Json.Num(0)))
  }

  /** Both sizes of the stream convert with `int()`. */
  predicate SizeReadable(v: Record) {
    StreamWidth(v).Success? && StreamHeight(v).Success?
  }

  /** The error `int()` raises first for a stream whose sizes do not convert. */
  function SizeError(v: Record): Error
    requires !SizeReadable(v)
  {
    if StreamWidth(v).Failure? then StreamWidth(v).error else StreamHeight(v).error
  }

  /** The test of `filter_resolution`: equal sizes, and `typeuri` inside the MIME prefix. */
  predicate MatchesResolution(v: Record, w: int, h: int, typeUri: string) {
    && StreamWidth(v) == Success(w)
    && StreamHeight(v) == Success(h)
    && Strings.HasInfix(MimePrefix(MimeType(v)), typeUri)
  }

  /** A stream the loop of `filter_resolution` reads and goes past: both sizes convert, no match. */
  predicate Passable(v: Record, w: int, h: int, typeUri: string) {
    SizeReadable(v) && !MatchesResolution(v, w, h, typeUri)
  }

  /** The fields `VideoStream.__load_uri` keeps. */
  const VideoKeys: set<string> := {
    "itag", "url", "mimeType", "bitrate", "width", "height", "initRange", "indexRange",
    "lastModified", "contentLength", "quality", "fps", "qualityLabel", "projectionType",
    "averageBitrate", "approxDurationMs"}

  /** The fields `AudioStream.__load_uri` keeps. */
  const AudioKeys: set<string> := {
    "itag", "url", "mimeType", "bitrate", "initRange", "indexRange", "lastModified",
    "contentLength", "quality", "projectionType", "averageBitrate", "highReplication",
    "audioQuality", "approxDurationMs", "audioSampleRate", "audioChannels", "loudnessDb"}

  /** `VideoStream.__load_uri`: every kept field copied, a missing one set to `None`. */
  function LoadVideoUri(uri: Record): (d: Record)
    ensures d.Keys == VideoKeys
    ensures forall k :: k in VideoKeys && k in uri ==> d[k] == uri[k]
    ensures forall k :: k in VideoKeys && k !in uri ==> d[k] == Json.Null
  {
    map k | k in VideoKeys :: Json.Field(uri, k, Json.Null)
  }

  /** The default `AudioStream.__load_uri` gives a missing field: `0` for the two sizes, else `''`. */
  function AudioDefault(k: string): Json.Value {
    if k == "lastModified" || k == "contentLength" then Json.Num(0) else Json.Str("")
  }

  /** `AudioStream.__load_uri`: every kept field copied, a missing one set to its default. */
  function LoadAudioUri(uri: Record): (d: Record)
    ensures d.Keys == AudioKeys
    ensures forall k :: k in AudioKeys && k in uri ==> d[k] == uri[k]
    ensures forall k :: k in AudioKeys && k !in uri ==> d[k] == AudioDefault(k)
  {
    map k | k in AudioKeys :: Json.Field(uri, k, AudioDefault(k))
  }

  datatype VideoStream = VideoStream(data: Record)
  datatype AudioStream = AudioStream(data: Record)

  /** Loading an already loaded stream changes nothing. */
  lemma LoadVideoUriIdempotent(uri: Record)
    ensures LoadVideoUri(LoadVideoUri(uri)) == LoadVideoUri(uri)
  {
    var d := LoadVideoUri(uri);
    assert forall k :: k in VideoKeys ==> LoadVideoUri(d)[k] == d[k];
  }

  lemma LoadAudioUriIdempotent(uri: Record)
    ensures LoadAudioUri(LoadAudioUri(uri)) == LoadAudioUri(uri)
  {
    var d := LoadAudioUri(uri);
    assert forall k :: k in AudioKeys ==> LoadAudioUri(d)[k] == d[k];
  }

  /**
    What the loop of `filter_resolution` does with one stream: `int()` of a size raises, the
    stream matches and is returned, or (`None`) the loop goes on.
   */
  function Inspect(w: int, h: int, typeUri: string): Record -> Option<Result<VideoStream, Error>> {
    v => if !SizeReadable(v) then Some(Failure(SizeError(v)))
         else if MatchesResolution(v, w, h, typeUri) then Some(Success(VideoStream(LoadVideoUri(v))))
         else None
  }

  /** The value `filter_resolution` returns or raises for the verdict its loop stops with. */
  function ScanResult(o: Option<Result<VideoStream, Error>>): Result<Option<VideoStream>, Error> {
    match o
    case None => Success(None)
    case Some(Failure(e)) => Failure(e)
    case Some(Success(x)) => Success(Some(x))
  }

  /**
    `filter_resolution`: parse the filter, then return the first video stream of that size
    whose MIME prefix contains `typeUri`. A size field that `int()` rejects raises on the way.
   */
  method FilterResolution(fs: FormatStream, resolutionFilter: string, typeUri: string)
    returns (r: Result<Option<VideoStream>, Error>)
    ensures ParseResolution(resolutionFilter).None? ==> r == Failure(InvalidResolution)
    ensures ParseResolution(resolutionFilter).Some? ==>
              var (w, h) := ParseResolution(resolutionFilter).value;
              r == ScanResult(Lists.FirstSome(Inspect(w, h, typeUri), fs.videos))
  {
    var parsed := ParseResolution(resolutionFilter);
    if parsed.None? {
      return Failure(InvalidResolution);
    }
    var (width, height) := parsed.value;
    var i := 0;
    while i < |fs.videos|
      invariant 0 <= i <= |fs.videos|
      invariant Lists.FirstSome(Inspect(width, height, typeUri), fs.videos[i..]) ==
                Lists.FirstSome(Inspect(width, height, typeUri), fs.videos)
    {
      var streamData := fs.videos[i];
      var streamWidth := StreamWidth(streamData);
      var streamHeight := StreamHeight(streamData);
      Lists.FirstSomeStep(Inspect(width, height, typeUri), fs.videos, i);
      if streamWidth.Failure? || streamHeight.Failure? {
        return Failure(if streamWidth.Failure? then streamWidth.error else streamHeight.error);
      }
      var mimeType := MimeType(streamData);
      if streamWidth.value == width && streamHeight.value == height && Strings.HasInfix(MimePrefix(mimeType), typeUri) {
        return Success(Some(VideoStream(LoadVideoUri(streamData))));
      }
      i := i + 1;
    }
    r := Success(None);
  }

  /**
    What the loop of `filter_resolution` ends with: `None` when every stream was read and none
    matched, the first matching stream, or the error of the first stream whose sizes `int()`
    rejects, every stream before the one it stops at having been read without a match.
   */
  ghost predicate ScanOutcome(videos: seq<Record>, w: int, h: int, typeUri: string,
                              r: Result<Option<VideoStream>, Error>)
  {
    && (r == Success(None) <==> forall j :: 0 <= j < |videos| ==> Passable(videos[j], w, h, typeUri))
    && (r.Success? && r.value.Some? ==>
          exists k :: 0 <= k < |videos| && (forall j :: 0 <= j < k ==> Passable(videos[j], w, h, typeUri))
            && SizeReadable(videos[k]) && MatchesResolution(videos[k], w, h, typeUri)
            && r.value.value == VideoStream(LoadVideoUri(videos[k])))
    && (r.Failure? ==>
          exists k :: 0 <= k < |videos| && (forall j :: 0 <= j < k ==> Passable(videos[j], w, h, typeUri))
            && !SizeReadable(videos[k]) && r.error == SizeError(videos[k]))
  }

  function StopsAt(w: int, h: int, typeUri: string): Record -> bool {
    v => !Passable(v, w, h, typeUri)
  }

  /** The stream loop of `filter_resolution` ends as `ScanOutcome` describes. */
  lemma ScanResultOutcome(videos: seq<Record>, w: int, h: int, typeUri: string)
    ensures ScanOutcome(videos, w, h, typeUri, ScanResult(Lists.FirstSome(Inspect(w, h, typeUri), videos)))
  {
    Lists.FirstSomeBy(Inspect(w, h, typeUri), videos, StopsAt(w, h, typeUri));
  }

  /** One entry of `get_all_audios_quality`: `{"audioQuality": q, "typeAudio": <MIME prefix>}`. */
  datatype AudioQualityEntry = AudioQualityEntry(audioQuality: Json.Value, typeAudio: string)

  /** A stream `get_all_audios_quality` lists: truthy audioQuality and mimeType. */
  predicate HasAudioQuality(v: Record) {
    Json.Truthy(Json.Field(v, "audioQuality", Json.Null)) && Json.Truthy(MimeType(v))
  }

  function AudioQualityOf(v: Record): AudioQualityEntry {
    AudioQualityEntry(Json.Field(v, "audioQuality", Json.Null), MimePrefix(MimeType(v)))
  }

  /** `get_all_audios_quality`: each distinct (quality, MIME prefix) pair once, in first-occurrence order. */
  method GetAllAudiosQuality(fs: FormatStream) returns (audios: seq<AudioQualityEntry>)
    ensures audios == Lists.Dedup(Lists.Map(AudioQualityOf, Lists.Filter(HasAudioQuality, fs.audios)))
  {
    audios := Lists.CollectDistinct(HasAudioQuality, AudioQualityOf, fs.audios);
  }

  /** The listing holds no entry twice, and every stream that qualifies has its audio quality listed. */
  lemma AudioQualitiesListOnceEach(streams: seq<Record>)
    ensures var listed := Lists.Dedup(Lists.Map(AudioQualityOf, Lists.Filter(HasAudioQuality, streams)));
            && Lists.NoDuplicates(listed)
            && forall i :: 0 <= i < |streams| && HasAudioQuality(streams[i]) ==> AudioQualityOf(streams[i]) in listed
  {
    Lists.DedupMapFilterCovers(HasAudioQuality, AudioQualityOf, streams);
  }

  /** The test of `filter_audio_quality`: the same quality string, and `typeAudio` inside the MIME prefix. */
  predicate MatchesAudioQuality(v: Record, audioQuality: string, typeAudio: string) {
    && Json.Field(v, "audioQuality", Json.Str("")) == Json.Str(audioQuality)
    && Strings.HasInfix(MimePrefix(Json.Field(v, "mimeType", Json.Str(""))), typeAudio)
  }

  /** What the loop of `filter_audio_quality` does with one stream: return it, or go on. */
  function InspectAudio(audioQuality: string, typeAudio: string): Record -> Option<AudioStream> {
    v => if MatchesAudioQuality(v, audioQuality, typeAudio) then Some(AudioStream(LoadAudioUri(v))) else None
  }

  /** `filter_audio_quality`: the first audio stream that matches, or `None`. */
  method FilterAudioQuality(fs: FormatStream, audioQuality: string, typeAudio: string)
    returns (r: Option<AudioStream>)
    ensures r == Lists.FirstSome(InspectAudio(audioQuality, typeAudio), fs.audios)
  {
    var i := 0;
    while i < |fs.audios|
      invariant 0 <= i <= |fs.audios|
      invariant Lists.FirstSome(InspectAudio(audioQuality, typeAudio), fs.audios[i..]) ==
                Lists.FirstSome(InspectAudio(audioQuality, typeAudio), fs.audios)
    {
      var streamData := fs.audios[i];
      var quality := Json.Field(streamData, "audioQuality", Json.Str(""));
      var mimeType := Json.Field(streamData, "mimeType", Json.Str(""));
      Lists.FirstSomeStep(InspectAudio(audioQuality, typeAudio), fs.audios, i);
      if quality == Json.Str(audioQuality) && Strings.HasInfix(MimePrefix(mimeType), typeAudio) {
        return Some(AudioStream(LoadAudioUri(streamData)));
      }
      i := i + 1;
    }
    return None;
  }

  function MatchesAudioQualityOf(audioQuality: string, typeAudio: string): Record -> bool {
    v => MatchesAudioQuality(v, audioQuality, typeAudio)
  }

  /**
    `filter_audio_quality` returns `None` exactly when no stream matches, and otherwise the
    first stream that matches.
   */
  lemma AudioQualityOutcome(audios: seq<Record>, audioQuality: string, typeAudio: string)
    ensures var r := Lists.FirstSome(InspectAudio(audioQuality, typeAudio), audios);
            && (r.None? <==> forall j :: 0 <= j < |audios| ==> !MatchesAudioQuality(audios[j], audioQuality, typeAudio))
            && (r.Some? ==>
                  exists k :: 0 <= k < |audios| && MatchesAudioQuality(audios[k], audioQuality, typeAudio)
                    && (forall j :: 0 <= j < k ==> !MatchesAudioQuality(audios[j], audioQuality, typeAudio))
                    && r == Some(AudioStream(LoadAudioUri(audios[k]))))
  {
    Lists.FirstSomeBy(InspectAudio(audioQuality, typeAudio), audios, MatchesAudioQualityOf(audioQuality, typeAudio));
  }

  lemma HasInfixSelf(s: string)
    ensures Strings.HasInfix(s, s)
  {
    assert s <= s;
  }

  /**
    A resolution listed by `get_resolutions` for a stream with integer sizes parses back to those
    sizes, and that stream passes the `filter_resolution` test with the listed MIME prefix.
   */
  lemma ListedResolutionSelectsItsStream(v: Record)
    requires HasResolution(v) && Json.Field(v, "width", Json.Null).Num? && Json.Field(v, "height", Json.Null).Num?
    ensures var w, h := Json.Field(v, "width", Json.Null).n, Json.Field(v, "height", Json.Null).n;
            && ParseResolution(ResolutionOf(v).resolution) == Some((w, h))
            && MatchesResolution(v, w, h, ResolutionOf(v).typeUri)
  {
    var w, h := Json.Field(v, "width", Json.Null).n, Json.Field(v, "height", Json.Null).n;
    ParseResolutionOfDecimal(w, h);
    HasInfixSelf(ResolutionOf(v).typeUri);
  }

  /** A quality listed by `get_all_audios_quality` selects its own stream in `filter_audio_quality`. */
  lemma ListedQualitySelectsItsStream(v: Record)
    requires HasAudioQuality(v) && Json.Field(v, "audioQuality", Json.Null).Str?
    ensures MatchesAudioQuality(v, Json.Field(v, "audioQuality", Json.Null).s, AudioQualityOf(v).typeAudio)
  {
    HasInfixSelf(AudioQualityOf(v).typeAudio);
  }
}
