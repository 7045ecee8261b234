/**
  youtube_analyzer/playlists.py: `create_urls`, which turns already-decoded video records into
  watch links, and the part of `get_videos_playlist` that runs on the decoded `ytInitialData`
  document: the navigation to the list of videos, the extraction loop with its counter, and the
  `max(..., key=lambda x: x['width'])` choice of thumbnail. The HTTP request and the HTML
  scraping that produce the document and the page title are inputs here.
 */
module Playlists {
  import opened Wrappers
  import Lists
  import Json

  type Value = Json.Value

  /** The prefix `create_urls` puts before every video id. */
  const WatchBase: string := "https://www.youtube.com/watch?v="

  /** One dict `create_urls` appends: `index`, `title` and `thumbnail` copied, `url` built. */
  datatype UrlEntry = UrlEntry(index: Value, title: Value, url: string, thumbnail: Value)

  /** `video.get(k)` for a video known to be a dict; a missing key gives `None`. */
  function FieldOf(video: Value, k: string): Value {
    if video.Obj? then Json.Field(video.fields, k, Json.Null) else Json.Null
  }

  /** A video record `create_urls` makes a link for: its `videoId` is truthy. */
  predicate HasVideoId(video: Value) {
    Json.Truthy(FieldOf(video, "videoId"))
  }

  /** The entry `create_urls` makes for a video record. */
  function UrlEntryOf(video: Value): UrlEntry {
    UrlEntry(FieldOf(video, "index"), FieldOf(video, "title"),
             WatchBase + Json.Text(FieldOf(video, "videoId")), FieldOf(video, "thumbnail"))
  }

  predicate AllObjects(items: seq<Value>) {
    forall i :: 0 <= i < |items| ==> items[i].Obj?
  }

  /** `data.get("videos", [])` and iteration over it, whose items are then asked for `.get`. */
  function VideoRecords(data: Value): Result<seq<Value>, Json.PyError> {
    var videos :- Json.Get(data, "videos", Json.Arr([]));
    Json.Elements(videos, Json.Method)
  }

  /**
    One turn of the loop of `create_urls`: a record that is not a dict has no `.get` and raises
    `AttributeError`; a dict with a truthy `videoId` gives its entry; any other dict gives none.
   */
  function UrlStep(i: nat, video: Value): Result<seq<UrlEntry>, Json.PyError> {
    if !video.Obj? then Failure(Json.AttributeError)
    else if HasVideoId(video) then Success([UrlEntryOf(video)])
    else Success([])
  }

  /** What `create_urls` returns or raises. */
  function Urls(data: Value): Result<seq<UrlEntry>, Json.PyError> {
    var items :- VideoRecords(data);
    Lists.Collect(UrlStep, items)
  }

  /** `create_urls`: the loop appends an entry for every record with a truthy `videoId`. */
  method CreateUrls(data: Value) returns (r: Result<seq<UrlEntry>, Json.PyError>)
    ensures r == Urls(data)
  {
    var records := VideoRecords(data);
    if records.Failure? {
      return Failure(records.error);
    }
    var videos := records.value;
    var urls: seq<UrlEntry> := [];
    var i := 0;
    while i < |videos|
      invariant 0 <= i <= |videos|
      invariant Lists.Collect(UrlStep, videos[..i]) == Success(urls)
    {
      Lists.CollectStep(UrlStep, videos, i);
      var video := videos[i];
      if !video.Obj? {
        Lists.CollectFailureStays(UrlStep, videos, i + 1);
        return Failure(Json.AttributeError);
      }
      var videoId := Json.Field(video.fields, "videoId", Json.Null);
      var index := Json.Field(video.fields, "index", Json.Null);
      var title := Json.Field(video.fields, "title", Json.Null);
      var thumbnail := Json.Field(video.fields, "thumbnail", Json.Null);
      if Json.Truthy(videoId) {
        var url := WatchBase + Json.Text(videoId);
        urls := urls + [UrlEntry(index, title, url, thumbnail)];
        assert UrlStep(i, video) == Success([UrlEntry(index, title, url, thumbnail)]);
      } else {
        assert UrlStep(i, video) == Success([]) && urls + [] == urls;
      }
      i := i + 1;
    }
    Lists.TakeStep(videos, i);
    r := Success(urls);
  }

  /**
    The loop raises exactly when some record is not a dict; otherwise it returns the entries of
    the records with a truthy `videoId`, one each, in input order.
   */
  lemma {:induction false} UrlsSelect(items: seq<Value>)
    ensures Lists.Collect(UrlStep, items) ==
            if AllObjects(items) then Success(Lists.Map(UrlEntryOf, Lists.Filter(HasVideoId, items)))
            else Failure(Json.AttributeError)
  {
    if items != [] {
      var n := |items| - 1;
      var init, x := items[..n], items[n];
      UrlsSelect(init);
      assert AllObjects(items) <==> AllObjects(init) && x.Obj? by {
        assert forall j :: 0 <= j < n ==> items[j] == init[j];
      }
      if AllObjects(items) {
        var kept := Lists.Filter(HasVideoId, init);
        if HasVideoId(x) {
          assert Lists.Filter(HasVideoId, items) == kept + [x];
          Lists.MapSnoc(UrlEntryOf, kept, x);
        } else {
          assert Lists.Filter(HasVideoId, items) == kept + [] == kept;
          var prev := Lists.Map(UrlEntryOf, kept);
          assert UrlStep(n, x) == Success([]);
          assert Lists.Collect(UrlStep, items) == Success(prev + []);
          assert prev + [] == prev;
        }
      }
    }
  }

  /**
    Every entry comes from a record with a truthy `videoId`: its `url` is the watch prefix
    followed by that id, and its `index`, `title` and `thumbnail` are the record's, unchanged.
    Every such record has its entry.
   */
  lemma UrlEntriesCopyRecords(items: seq<Value>)
    ensures var urls := Lists.Map(UrlEntryOf, Lists.Filter(HasVideoId, items));
            forall e :: e in urls ==>
              exists video :: video in items && HasVideoId(video) &&
                e.url == WatchBase + Json.Text(FieldOf(video, "videoId")) &&
                e.index == FieldOf(video, "index") && e.title == FieldOf(video, "title") &&
                e.thumbnail == FieldOf(video, "thumbnail")
    ensures var urls := Lists.Map(UrlEntryOf, Lists.Filter(HasVideoId, items));
            forall i :: 0 <= i < |items| && HasVideoId(items[i]) ==> UrlEntryOf(items[i]) in urls
  {
    var kept := Lists.Filter(HasVideoId, items);
    Lists.FilterMembers(HasVideoId, items);
    Lists.MapAt(UrlEntryOf, kept);
    var urls := Lists.Map(UrlEntryOf, kept);
    forall e | e in urls
      ensures exists video :: video in items && HasVideoId(video) && e == UrlEntryOf(video)
    {
      var k :| 0 <= k < |urls| && urls[k] == e;
      assert kept[k] in items && HasVideoId(kept[k]);
    }
    forall i | 0 <= i < |items| && HasVideoId(items[i]) ensures UrlEntryOf(items[i]) in urls {
      var k :| 0 <= k < |kept| && kept[k] == items[i];
      assert urls[k] == UrlEntryOf(items[i]);
    }
  }

  /** `create_urls` never returns more entries than it was given records. */
  lemma UrlsBound(data: Value)
    requires Urls(data).Success?
    ensures |Urls(data).value| <= |VideoRecords(data).value|
  {
    UrlsSelect(VideoRecords(data).value);
  }

  /** A dict without a `"videos"` key gives no records, so `create_urls` returns `[]`. */
  lemma NoVideosKey(data: Value)
    requires data.Obj? && "videos" !in data.fields
    ensures VideoRecords(data) == Success([]) && Urls(data) == Success([])
  {
  }

  /** The watch link of an id string holds the id right after the prefix. */
  lemma UrlEndsWithId(video: Value)
    requires FieldOf(video, "videoId").Str?
    ensures var url := UrlEntryOf(video).url;
            url[..|WatchBase|] == WatchBase && url[|WatchBase|..] == FieldOf(video, "videoId").s
  {
  }

  // ---- `max(thumbnail, key=lambda x: x['width'])` ----

  /** `x['width']`, the key `max` computes for every thumbnail. */
  function WidthKey(x: Value): Result<Value, Json.PyError> {
    Json.Key(x, "width")
  }

  /**
    What `max` holds after going through `s`: nothing yet, or the best item with its key. Each
    item's key is computed; from the second item on it is compared with `>` against the best key
    so far, and it replaces the best item only when strictly greater. Numbers and booleans
    compare; any other pair of keys raises `TypeError`.
   */
  function Best(s: seq<Value>): Result<Option<(Value, Value)>, Json.PyError> {
    if s == [] then Success(None)
    else
      var prev :- Best(s[..|s| - 1]);
      var x := s[|s| - 1];
      var val :- WidthKey(x);
      if prev.None? then Success(Some((x, val)))
      else if Json.IsNumber(val) && Json.IsNumber(prev.value.1) then
        Success(if Json.Number(val) > Json.Number(prev.value.1) then Some((x, val)) else prev)
      else Failure(Json.TypeError)
  }

  /** `max(s, key=lambda x: x['width'])`: an empty sequence raises `ValueError`. */
  function Widest(s: seq<Value>): Result<Value, Json.PyError> {
    var best :- Best(s);
    if best.None? then Failure(Json.ValueError) else Success(best.value.0)
  }

  /** A thumbnail whose `width` is a number. */
  predicate HasWidth(x: Value) {
    WidthKey(x).Success? && Json.IsNumber(WidthKey(x).value)
  }

  function Width(x: Value): int
    requires HasWidth(x)
  {
    Json.Number(WidthKey(x).value)
  }

  lemma {:induction false} BestAt(s: seq<Value>) returns (k: nat)
    requires s != [] && forall j :: 0 <= j < |s| ==> HasWidth(s[j])
    ensures k < |s| && WidthKey(s[k]).Success? && Best(s) == Success(Some((s[k], WidthKey(s[k]).value)))
    ensures forall j :: 0 <= j < |s| ==> Width(s[j]) <= Width(s[k])
    ensures forall j :: 0 <= j < k ==> Width(s[j]) < Width(s[k])
  {
    var n := |s| - 1;
    var init := s[..n];
    if init == [] {
      k := 0;
    } else {
      var k0 := BestAt(init);
      assert init[k0] == s[k0];
      if Width(s[n]) > Width(s[k0]) {
        k := n;
      } else {
        k := k0;
      }
      forall j | 0 <= j < |s| ensures Width(s[j]) <= Width(s[k]) {
        if j < n {
          assert s[j] == init[j];
        }
      }
      forall j | 0 <= j < k ensures Width(s[j]) < Width(s[k]) {
        if j < n {
          assert s[j] == init[j];
        }
      }
    }
  }

  /**
    When every thumbnail has a numeric width, the chosen one is the first of maximal width: no
    thumbnail is wider, and every one before it is strictly narrower.
   */
  lemma WidestIsFirstMaximal(s: seq<Value>)
    requires s != [] && forall j :: 0 <= j < |s| ==> HasWidth(s[j])
    ensures exists k :: 0 <= k < |s| && Widest(s) == Success(s[k]) &&
              (forall j :: 0 <= j < |s| ==> Width(s[j]) <= Width(s[k])) &&
              (forall j :: 0 <= j < k ==> Width(s[j]) < Width(s[k]))
  {
    var k := BestAt(s);
  }

  /** Every `x['width']` lookup succeeds. */
  predicate AllMeasured(s: seq<Value>) {
    forall j :: 0 <= j < |s| ==> WidthKey(s[j]).Success?
  }

  lemma {:induction false} BestSucceeds(s: seq<Value>)
    ensures Best(s).Success? <==>
              AllMeasured(s) && (|s| > 1 ==> forall j :: 0 <= j < |s| ==> HasWidth(s[j]))
    ensures Best(s).Success? ==> (Best(s).value.None? <==> s == [])
    ensures Best(s).Failure? ==> Best(s).error != Json.ValueError
    ensures Best(s).Success? && s != [] ==>
              exists k :: 0 <= k < |s| && Best(s).value.value == (s[k], WidthKey(s[k]).value)
  {
    if s != [] {
      var n := |s| - 1;
      var init := s[..n];
      BestSucceeds(init);
      assert forall j :: 0 <= j < n ==> s[j] == init[j];
      if Best(s).Success? && init != [] {
        var k :| 0 <= k < n && Best(init).value.value == (init[k], WidthKey(init[k]).value);
        assert s[k] == init[k];
      }
    }
  }

  /**
    `max` raises `ValueError` exactly on an empty sequence, and otherwise succeeds exactly when
    every thumbnail has a `width` and, when there are two or more, every width is a number.
   */
  lemma WidestSucceeds(s: seq<Value>)
    ensures Widest(s) == Failure(Json.ValueError) <==> s == []
    ensures Widest(s).Success? <==>
              s != [] && AllMeasured(s) && (|s| > 1 ==> forall j :: 0 <= j < |s| ==> HasWidth(s[j]))
  {
    BestSucceeds(s);
  }

  // ---- `get_videos_playlist` on the decoded document ----

  /**
    `data['contents']['twoColumnBrowseResultsRenderer']['tabs'][0]['tabRenderer']['content']
    ['sectionListRenderer']['contents'][0]['itemSectionRenderer']['contents']`.
   */
  function Navigate(data: Value): Result<Value, Json.PyError> {
    var contents :- Json.Key(data, "contents");
    var browse :- Json.Key(contents, "twoColumnBrowseResultsRenderer");
    var tabs :- Json.Key(browse, "tabs");
    var tab :- Json.At(tabs, 0);
    var tabRenderer :- Json.Key(tab, "tabRenderer");
    var content :- Json.Key(tabRenderer, "content");
    var sectionList :- Json.Key(content, "sectionListRenderer");
    var sections :- Json.Key(sectionList, "contents");
    var section :- Json.At(sections, 0);
    var itemSection :- Json.Key(section, "itemSectionRenderer");
    Json.Key(itemSection, "contents")
  }

  /** One entry of `for_ids`: `index` is the position inside its own video list. */
  datatype PlaylistVideo = PlaylistVideo(index: nat, videoId: Value, title: Value, thumbnail: Value)

  /** `brute['thumbnail']['thumbnails']`, iterated by `max`. */
  function Thumbnails(brute: Value): Result<seq<Value>, Json.PyError> {
    var thumbnail :- Json.Key(brute, "thumbnail");
    var thumbnails :- Json.Key(thumbnail, "thumbnails");
    Json.Elements(thumbnails, Json.Subscript)
  }

  /**
    The lookups one turn of the inner loop makes before its `if`: the renderer, `videoId`, the
    first run's `text`, and the widest thumbnail. Any of them may raise.
   */
  function ReadVideo(idx: nat, v: Value): Result<PlaylistVideo, Json.PyError> {
    var brute :- Json.Key(v, "playlistVideoRenderer");
    var videoId :- Json.Key(brute, "videoId");
    var titleObj :- Json.Key(brute, "title");
    var runs :- Json.Key(titleObj, "runs");
    var run :- Json.At(runs, 0);
    var title :- Json.Key(run, "text");
    var thumbnails :- Thumbnails(brute);
    var highestRes :- Widest(thumbnails);
    Success(PlaylistVideo(idx, videoId, title, highestRes))
  }

  /** `if video_id and title:` */
  predicate Kept(e: PlaylistVideo) {
    Json.Truthy(e.videoId) && Json.Truthy(e.title)
  }

  /** What one turn of the inner loop appends. */
  function EntriesOf(idx: nat, v: Value): Result<seq<PlaylistVideo>, Json.PyError> {
    var e :- ReadVideo(idx, v);
    Success(if Kept(e) then [e] else [])
  }

  /** `video['playlistVideoListRenderer'].get("contents")`, which `enumerate` iterates. */
  function ListItems(video: Value): Result<seq<Value>, Json.PyError> {
    var dados :- Json.Key(video, "playlistVideoListRenderer");
    var contents :- Json.Get(dados, "contents", Json.Null);
    Json.Elements(contents, Json.Subscript)
  }

  /** What one turn of the outer loop appends. */
  function ListEntries(i: nat, video: Value): Result<seq<PlaylistVideo>, Json.PyError> {
    var vs :- ListItems(video);
    Lists.Collect(EntriesOf, vs)
  }

  /** Everything the two loops append, or the first exception raised in the `try` block. */
  function Extracted(data: Value): Result<seq<PlaylistVideo>, Json.PyError> {
    var videos :- Navigate(data);
    var items :- Json.Elements(videos, Json.Subscript);
    Lists.Collect(ListEntries, items)
  }

  /** The dict `get_videos_playlist` returns. */
  datatype Playlist = Playlist(total: nat, videos: seq<PlaylistVideo>, playlistTitle: string)

  /** `except KeyError: return None`; every other exception leaves the function. */
  function Caught<T>(e: Json.PyError): Result<Option<T>, Json.PyError> {
    if e == Json.KeyError then Success(None) else Failure(e)
  }

  /**
    The `try` block of `get_videos_playlist` on the decoded document: `total` goes up exactly
    when an entry is appended, so it is the number of entries returned.
   */
  method GetVideosPlaylist(data: Value, playlistTitle: string) returns (r: Result<Option<Playlist>, Json.PyError>)
    ensures Extracted(data).Failure? ==> r == Caught(Extracted(data).error)
    ensures Extracted(data).Success? ==>
              r.Success? && r.value.Some? && r.value.value.playlistTitle == playlistTitle &&
              r.value.value.videos == Extracted(data).value &&
              r.value.value.total == |r.value.value.videos|
  {
    var nav := Navigate(data);
    if nav.Failure? {
      return Caught(nav.error);
    }
    var outer := Json.Elements(nav.value, Json.Subscript);
    if outer.Failure? {
      return Caught(outer.error);
    }
    var videos := outer.value;
    var forIds: seq<PlaylistVideo> := [];
    var total := 0;
    var i := 0;
    while i < |videos|
      invariant 0 <= i <= |videos|
      invariant Lists.Collect(ListEntries, videos[..i]) == Success(forIds)
      invariant total == |forIds|
    {
      Lists.CollectStep(ListEntries, videos, i);
      var items := ListItems(videos[i]);
      if items.Failure? {
        Lists.CollectFailureStays(ListEntries, videos, i + 1);
        return Caught(items.error);
      }
      var contents := items.value;
      var error;
      forIds, total, error := AppendEntries(contents, forIds, total);
      if error.Some? {
        Lists.CollectFailureStays(ListEntries, videos, i + 1);
        return Caught(error.value);
      }
      i := i + 1;
    }
    Lists.TakeStep(videos, i);
    r := Success(Some(Playlist(total, forIds, playlistTitle)));
  }

  /**
    The inner loop of `get_videos_playlist` over one list's `contents`: read each entry and, when
    it has a truthy id and title, count it in `total` and append it to `for_ids`.
   */
  method AppendEntries(contents: seq<Value>, forIds0: seq<PlaylistVideo>, total0: nat)
    returns (forIds: seq<PlaylistVideo>, total: nat, error: Option<Json.PyError>)
    requires total0 == |forIds0|
    ensures error.None? <==> Lists.Collect(EntriesOf, contents).Success?
    ensures error.Some? ==> Lists.Collect(EntriesOf, contents) == Failure(error.value)
    ensures error.None? ==> forIds == forIds0 + Lists.Collect(EntriesOf, contents).value
    ensures total == |forIds|
  {
    forIds, total, error := forIds0, total0, None;
    var idx := 0;
    while idx < |contents|
      invariant 0 <= idx <= |contents|
      invariant Lists.Collect(EntriesOf, contents[..idx]).Success?
      invariant forIds == forIds0 + Lists.Collect(EntriesOf, contents[..idx]).value
      invariant total == |forIds|
    {
      Lists.CollectStep(EntriesOf, contents, idx);
      var e := ReadVideo(idx, contents[idx]);
      if e.Failure? {
        Lists.CollectFailureStays(EntriesOf, contents, idx + 1);
        return forIds, total, Some(e.error);
      }
      if Json.Truthy(e.value.videoId) && Json.Truthy(e.value.title) {
        total := total + 1;
        forIds := forIds + [e.value];
      }
      idx := idx + 1;
    }
    Lists.TakeStep(contents, idx);
  }

  /** Every returned entry has a truthy `videoId` and a truthy title. */
  lemma ExtractedAreKept(data: Value)
    ensures Extracted(data).Success? ==> forall e :: e in Extracted(data).value ==> Kept(e)
  {
    forall i: nat, v: Value | EntriesOf(i, v).Success?
      ensures forall e :: e in EntriesOf(i, v).value ==> Kept(e)
    {
    }
    forall i: nat, video: Value | ListEntries(i, video).Success?
      ensures forall e :: e in ListEntries(i, video).value ==> Kept(e)
    {
      Lists.CollectAll(EntriesOf, ListItems(video).value, Kept);
    }
    if Navigate(data).Success? && Json.Elements(Navigate(data).value, Json.Subscript).Success? {
      Lists.CollectAll(ListEntries, Json.Elements(Navigate(data).value, Json.Subscript).value, Kept);
    }
  }

  /** A read entry's thumbnail is the `max` pick from its own thumbnails list. */
  lemma ReadVideoThumbnail(idx: nat, v: Value)
    requires ReadVideo(idx, v).Success?
    ensures var brute := Json.Key(v, "playlistVideoRenderer").value;
            Thumbnails(brute).Success? &&
            Widest(Thumbnails(brute).value) == Success(ReadVideo(idx, v).value.thumbnail)
    ensures ReadVideo(idx, v).value.index == idx
  {
  }
}
