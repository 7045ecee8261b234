/**
  youtube_analyzer/parsers.py: the older caption code (`TradutionCaptions`'s URL rewrite with
  `kind=asr` built in, and `CaptionsParser` with `get_languages`, the subtitle lookup and the
  checks and file name of `download`) and the record `ParserPlaylist` shapes from a decoded
  playlist. The page metadata `ParserPlaylist` scrapes and the caption request are inputs.
 */
module Parsers {
  import opened Wrappers
  import Lists
  import Strings
  import Paths
  import Json
  import Query
  import Captions
  import Playlists

  type Value = Json.Value
  type CaptionError = Captions.CaptionError

  // ---- `TradutionCaptions.__convert_url_to_previous_format` ----

  /** How many entries the older `ordered_params` dict display has. */
  const OldCount: nat := 28

  /** Entry `i` of the older `ordered_params` dict display, in the order written. */
  function OldParam(i: nat, v: string, ei: string, hl: string, expire: string,
                    signature: string, lang: string, tlang: string): Query.Param
    requires i < OldCount
  {
    match i
    case 0 => ("v", v)
    case 1 => ("ei", ei)
    case 2 => ("caps", "asr")
    case 3 => ("opi", "112496729")
    case 4 => ("exp", "xbt")
    case 5 => ("xoaf", "5")
    case 6 => ("hl", hl)
    case 7 => ("ip", "0.0.0.0")
    case 8 => ("ipbits", "0")
    case 9 => ("expire", expire)
    case 10 => ("sparams", "ip,ipbits,expire,v,ei,caps,opi,exp,xoaf")
    case 11 => ("signature", signature)
    case 12 => ("key", "yt8")
    case 13 => ("kind", "asr")
    case 14 => ("lang", lang)
    case 15 => ("fmt", "srt")
    case 16 => ("xorb", "2")
    case 17 => ("xobt", "3")
    case 18 => ("xovt", "3")
    case 19 => ("tlang", tlang)
    case 20 => ("cbr", "Chrome")
    case 21 => ("cbrver", "131.0.0.0")
    case 22 => ("c", "WEB")
    case 23 => ("cver", "2.20241125.01.00")
    case 24 => ("cplayer", "UNIPLAYER")
    case 25 => ("cos", "Windows")
    case 26 => ("cosver", "10.0")
    case 27 => ("cplatform", "DESKTOP")
  }

  /** The older `ordered_params` dict display. */
  function OldOrderedParams(v: string, ei: string, hl: string, expire: string, signature: string,
                            lang: string, tlang: string): seq<Query.Param>
  {
    seq(OldCount, i requires 0 <= i < OldCount => OldParam(i, v, ei, hl, expire, signature, lang, tlang))
  }

  /**
    The older dict, with the values read from the source query (`""` when missing). The `fmt`
    the source query carries is read but never used.
   */
  function OldParams(q: Query.ParsedQuery, tlang: string): seq<Query.Param> {
    OldOrderedParams(Query.First(q, "v", ""), Query.First(q, "ei", ""), Query.First(q, "hl", ""),
                     Query.First(q, "expire", ""), Query.First(q, "signature", ""),
                     Query.First(q, "lang", ""), tlang)
  }

  /** The older rewrite: the new query string, whatever the source language. */
  function ConvertUrlOld(q: Query.ParsedQuery, tlang: string): string {
    Query.QueryString(OldParams(q, tlang))
  }

  /** Entry by entry, the older dict is the newer one with `kind=asr` put before `lang`. */
  lemma OldParamShift(i: nat, v: string, ei: string, hl: string, expire: string, signature: string,
                      lang: string, tlang: string)
    requires i < OldCount
    ensures OldParam(i, v, ei, hl, expire, signature, lang, tlang) ==
            if i < 13 then Captions.OrderedParam(i, v, ei, hl, expire, signature, lang, tlang)
            else if i == 13 then ("kind", "asr")
            else Captions.OrderedParam(i - 1, v, ei, hl, expire, signature, lang, tlang)
  {
  }

  /**
    The older dict is the newer one with `kind=asr` put between `key` and `lang`: the same keys
    in the same order and the same values otherwise.
   */
  lemma OldParamsInsertKind(v: string, ei: string, hl: string, expire: string, signature: string,
                            lang: string, tlang: string)
    ensures var d := Captions.OrderedParams(v, ei, hl, expire, signature, lang, tlang);
            OldOrderedParams(v, ei, hl, expire, signature, lang, tlang) == d[..13] + [("kind", "asr")] + d[13..]
  {
    var d := Captions.OrderedParams(v, ei, hl, expire, signature, lang, tlang);
    var older := OldOrderedParams(v, ei, hl, expire, signature, lang, tlang);
    var e := d[..13] + [("kind", "asr")] + d[13..];
    forall i | 0 <= i < OldCount ensures older[i] == e[i] {
      OldParamShift(i, v, ei, hl, expire, signature, lang, tlang);
    }
  }

  /** The entries of the older dict the properties below are about. */
  lemma OldParamsFields(v: string, ei: string, hl: string, expire: string, signature: string,
                        lang: string, tlang: string)
    ensures var p := OldOrderedParams(v, ei, hl, expire, signature, lang, tlang);
            && |p| == OldCount
            && p[13] == ("kind", "asr") && p[14] == ("lang", lang)
            && p[15] == ("fmt", "srt") && p[19] == ("tlang", tlang)
  {
  }

  /**
    Reading the older query back: 28 `key=value` parts in the dict's order, `kind=asr` 14th,
    `lang` copied from the source, `fmt=srt` and the requested `tlang`.
   */
  lemma ConvertUrlOldReadsBack(q: Query.ParsedQuery, tlang: string)
    requires Query.Separable(OldParams(q, tlang))
    ensures var parts := Strings.Split(ConvertUrlOld(q, tlang), '&');
            && |parts| == OldCount
            && parts[13] == "kind=asr"
            && parts[14] == "lang=" + Query.First(q, "lang", "")
            && parts[15] == "fmt=srt"
            && parts[19] == "tlang=" + tlang
  {
    OldParamsFields(Query.First(q, "v", ""), Query.First(q, "ei", ""), Query.First(q, "hl", ""),
                    Query.First(q, "expire", ""), Query.First(q, "signature", ""),
                    Query.First(q, "lang", ""), tlang);
    Query.QueryStringFields(OldParams(q, tlang));
  }

  /**
    Where the newer rewrite refuses a caption already in the requested language, the older one
    still builds a query, with `lang` and `tlang` both that language.
   */
  lemma OldRewritesSameLanguage(q: Query.ParsedQuery, tlang: string)
    requires Query.First(q, "lang", "") == tlang
    ensures Captions.ConvertUrl(q, tlang) == Failure(Captions.TranslationNotRequired)
    ensures OldParams(q, tlang)[14] == ("lang", tlang) && OldParams(q, tlang)[19] == ("tlang", tlang)
  {
    OldParamsFields(Query.First(q, "v", ""), Query.First(q, "ei", ""), Query.First(q, "hl", ""),
                    Query.First(q, "expire", ""), Query.First(q, "signature", ""), tlang, tlang);
  }

  // ---- `CaptionsParser` ----

  /** The older `CaptionsParser(caption_tracks)`: `None` and `'Not Captions'` raise. */
  function NewCaptionsParser(tracks: Value): (r: Result<Value, CaptionError>)
    ensures r.Failure? <==> tracks == Json.Null || tracks == Json.Str("Not Captions")
    ensures r.Failure? ==> r.error == Captions.AnalyzerError
    ensures r.Success? ==> r.value == tracks
  {
    if tracks == Json.Str("Not Captions") || tracks == Json.Null then Failure(Captions.AnalyzerError)
    else Success(tracks)
  }

  /** A dict `get_languages` returns. */
  type Entry = map<string, Value>

  /** What `get_languages` returns when the tracks hold `'Not Legend'`. */
  const NoLegend: seq<Entry> := [map["caption" := Json.Str("Not Captions")]]

  /** The dict the loop of `get_languages` appends for one track, in evaluation order. */
  function LanguageEntry(i: nat, track: Value): Result<seq<Entry>, Json.PyError> {
    var name :- Json.Key(track, "name");
    var runs :- Json.Key(name, "runs");
    var run :- Json.At(runs, 0);
    var lang :- Json.Key(run, "text");
    var code :- Json.Key(track, "languageCode");
    var url :- Json.Key(track, "baseUrl");
    Success([map["lang" := lang, "code" := code, "url" := url]])
  }

  /** What `get_languages` returns or raises. */
  function Languages(tracks: Value): Result<seq<Entry>, Json.PyError> {
    var notLegend :- Json.Contains(tracks, "Not Legend");
    if notLegend then Success(NoLegend)
    else
      var items :- Json.Elements(tracks, Json.Subscript);
      Lists.Collect(LanguageEntry, items)
  }

  /** `get_languages`: the sentinel on `'Not Legend'`, otherwise one dict per track. */
  method GetLanguages(tracks: Value) returns (r: Result<seq<Entry>, Json.PyError>)
    ensures r == Languages(tracks)
  {
    var notLegend := Json.Contains(tracks, "Not Legend");
    if notLegend.Failure? {
      return Failure(notLegend.error);
    }
    if notLegend.value {
      return Success(NoLegend);
    }
    var elements := Json.Elements(tracks, Json.Subscript);
    if elements.Failure? {
      return Failure(elements.error);
    }
    var items := elements.value;
    var dt: seq<Entry> := [];
    var i := 0;
    while i < |items|
      invariant 0 <= i <= |items|
      invariant Lists.Collect(LanguageEntry, items[..i]) == Success(dt)
    {
      Lists.CollectStep(LanguageEntry, items, i);
      var d := LanguageEntry(i, items[i]);
      if d.Failure? {
        Lists.CollectFailureStays(LanguageEntry, items, i + 1);
        return Failure(d.error);
      }
      dt := dt + d.value;
      i := i + 1;
    }
    Lists.TakeStep(items, i);
    r := Success(dt);
  }

  /**
    Without `'Not Legend'`, `get_languages` lists one dict per track, in track order, holding
    the track's name text as `lang`, its `languageCode` as `code` and its `baseUrl` as `url`.
   */
  lemma LanguagesPerTrack(tracks: Value)
    requires Languages(tracks).Success? && Json.Contains(tracks, "Not Legend") == Success(false)
    ensures var items := Json.Elements(tracks, Json.Subscript).value;
            var dt := Languages(tracks).value;
            && |dt| == |items|
            && forall i :: 0 <= i < |dt| ==>
                 && dt[i].Keys == {"lang", "code", "url"}
                 && Json.Key(items[i], "name").Success?
                 && (var name := Json.Key(items[i], "name").value;
                     Json.Key(name, "runs").Success?
                     && (var runs := Json.Key(name, "runs").value;
                         Json.At(runs, 0).Success?
                         && Json.Key(Json.At(runs, 0).value, "text") == Success(dt[i]["lang"])))
                 && Json.Key(items[i], "languageCode") == Success(dt[i]["code"])
                 && Json.Key(items[i], "baseUrl") == Success(dt[i]["url"])
  {
    var items := Json.Elements(tracks, Json.Subscript).value;
    Lists.CollectSingles(LanguageEntry, items);
  }

  /** `'Not Legend'` among the tracks gives the one-dict sentinel. */
  lemma LanguagesSentinel(tracks: Value)
    requires Json.Contains(tracks, "Not Legend") == Success(true)
    ensures Languages(tracks) == Success(NoLegend) && "code" !in NoLegend[0]
  {
  }

  /**
    What the loop of `__get_subtitle_url` decides at one track: `track['languageCode']` raises,
    or matches and the loop returns `track['baseUrl']`, or it goes on.
   */
  function Look(code: string, track: Value): Option<Result<Value, Json.PyError>> {
    match Json.Key(track, "languageCode")
    case Failure(e) => Some(Failure(e))
    case Success(c) => if c == Json.Str(code) then Some(Json.Key(track, "baseUrl")) else None
  }

  /** What `__get_subtitle_url` returns (`None` when no track matches) or raises. */
  function SubtitleUrlOf(tracks: Value, code: string): Result<Value, Json.PyError> {
    var items :- Json.Elements(tracks, Json.Subscript);
    match Lists.FirstSome(t => Look(code, t), items)
    case None => Success(Json.Null)
    case Some(r) => r
  }

  /** `__get_subtitle_url`: the first track with the code gives its `baseUrl`. */
  method SubtitleUrl(tracks: Value, code: string) returns (r: Result<Value, Json.PyError>)
    ensures r == SubtitleUrlOf(tracks, code)
  {
    var elements := Json.Elements(tracks, Json.Subscript);
    if elements.Failure? {
      return Failure(elements.error);
    }
    var items := elements.value;
    ghost var look := t => Look(code, t);
    var i := 0;
    while i < |items|
      invariant 0 <= i <= |items|
      invariant Lists.FirstSome(look, items[i..]) == Lists.FirstSome(look, items)
    {
      Lists.FirstSomeStep(look, items, i);
      var c := Json.Key(items[i], "languageCode");
      if c.Failure? {
        return Failure(c.error);
      }
      if c.value == Json.Str(code) {
        return Json.Key(items[i], "baseUrl");
      }
      i := i + 1;
    }
    assert items[i..] == [];
    r := Success(Json.Null);
  }

  /** The loop of `__get_subtitle_url` goes past `track`: it has a `languageCode`, not `code`. */
  predicate PassesOver(code: string, track: Value) {
    Json.Key(track, "languageCode").Success? && Json.Key(track, "languageCode").value != Json.Str(code)
  }

  /**
    The lookup gives `None` when the loop goes past every track. At the first track it does not
    go past, it gives that track's `baseUrl` lookup when the code matches, and raises the
    `languageCode` lookup's error when the track has none.
   */
  lemma SubtitleUrlIsFirstMatch(tracks: Value, code: string)
    requires Json.Elements(tracks, Json.Subscript).Success?
    ensures var items := Json.Elements(tracks, Json.Subscript).value;
            (forall j :: 0 <= j < |items| ==> PassesOver(code, items[j])) ==>
              SubtitleUrlOf(tracks, code) == Success(Json.Null)
    ensures var items := Json.Elements(tracks, Json.Subscript).value;
            forall k :: 0 <= k < |items| && (forall j :: 0 <= j < k ==> PassesOver(code, items[j])) ==>
              && (Json.Key(items[k], "languageCode") == Success(Json.Str(code)) ==>
                    SubtitleUrlOf(tracks, code) == Json.Key(items[k], "baseUrl"))
              && (Json.Key(items[k], "languageCode").Failure? ==>
                    SubtitleUrlOf(tracks, code) == Failure(Json.Key(items[k], "languageCode").error))
  {
    var items := Json.Elements(tracks, Json.Subscript).value;
    var look := t => Look(code, t);
    assert forall j :: 0 <= j < |items| ==> (look(items[j]).None? <==> PassesOver(code, items[j]));
    Lists.FirstSomeNone(look, items);
    forall k | 0 <= k < |items| && (forall j :: 0 <= j < k ==> PassesOver(code, items[j]))
      ensures Json.Key(items[k], "languageCode") == Success(Json.Str(code)) ==>
                SubtitleUrlOf(tracks, code) == Json.Key(items[k], "baseUrl")
      ensures Json.Key(items[k], "languageCode").Failure? ==>
                SubtitleUrlOf(tracks, code) == Failure(Json.Key(items[k], "languageCode").error)
    {
      if look(items[k]).Some? {
        Lists.FirstSomeAfterNones(look, items, k);
      }
    }
  }

  /**
    What the name loop of `download` ends with: `'captions_video'`, replaced by `item.get('lang')`
    at every item whose `code` is the requested one; an item without `code` raises `KeyError`.
   */
  function FileNameOf(entries: seq<Entry>, code: string): Result<Value, Json.PyError> {
    if entries == [] then Success(Json.Str("captions_video"))
    else
      var prev :- FileNameOf(entries[..|entries| - 1], code);
      var item := entries[|entries| - 1];
      if "code" !in item then Failure(Json.KeyError)
      else if item["code"] == Json.Str(code) then Success(Json.Field(item, "lang", Json.Null))
      else Success(prev)
  }

  /** The name loop of `download`. */
  method SelectFileName(entries: seq<Entry>, code: string) returns (r: Result<Value, Json.PyError>)
    ensures r == FileNameOf(entries, code)
  {
    var name := Json.Str("captions_video");
    var i := 0;
    while i < |entries|
      invariant 0 <= i <= |entries|
      invariant FileNameOf(entries[..i], code) == Success(name)
    {
      assert entries[..i + 1][..i] == entries[..i];
      var item := entries[i];
      if "code" !in item {
        FileNameFails(entries, code, i);
        return Failure(Json.KeyError);
      }
      if item["code"] == Json.Str(code) {
        name := Json.Field(item, "lang", Json.Null);
      }
      i := i + 1;
    }
    assert entries[..i] == entries;
    r := Success(name);
  }

  /** An item without `code` makes the whole loop raise `KeyError`. */
  lemma {:induction false} FileNameFails(entries: seq<Entry>, code: string, i: nat)
    requires i < |entries| && "code" !in entries[i]
    ensures FileNameOf(entries, code) == Failure(Json.KeyError)
    decreases |entries|
  {
    var n := |entries| - 1;
    if i < n {
      assert entries[..n][i] == entries[i];
      FileNameFails(entries[..n], code, i);
    } else if FileNameOf(entries[..n], code).Failure? {
      FileNameKeyError(entries[..n], code);
    }
  }

  /** The only exception the name loop raises is `KeyError`. */
  lemma {:induction false} FileNameKeyError(entries: seq<Entry>, code: string)
    ensures FileNameOf(entries, code).Failure? ==> FileNameOf(entries, code).error == Json.KeyError
    decreases |entries|
  {
    if entries != [] {
      FileNameKeyError(entries[..|entries| - 1], code);
    }
  }

  predicate HasCode(item: Entry, code: string) {
    "code" in item && item["code"] == Json.Str(code)
  }

  /**
    When every item has a `code`, the loop does not raise, and the name stays
    `'captions_video'` when no item has the requested code.
   */
  lemma {:induction false} FileNameDefault(entries: seq<Entry>, code: string)
    requires forall j :: 0 <= j < |entries| ==> "code" in entries[j]
    ensures FileNameOf(entries, code).Success?
    ensures (forall j :: 0 <= j < |entries| ==> !HasCode(entries[j], code)) ==>
              FileNameOf(entries, code) == Success(Json.Str("captions_video"))
    decreases |entries|
  {
    if entries != [] {
      var n := |entries| - 1;
      var init := entries[..n];
      assert forall j :: 0 <= j < n ==> init[j] == entries[j];
      FileNameDefault(init, code);
    }
  }

  /**
    The checks and the target of the older `download`, in source order: a missing directory
    raises `TypeError`; then the subtitle lookup, `get_languages` and the name loop run and may
    raise; a missing URL raises `YoutubeAnalyzerExceptions`, all before the request; a refused
    request raises it too; and `os.path.join` raises `TypeError` on a name that is not a string.
   */
  function DownloadOf(tracks: Value, code: string, existing: set<string>, outDir: string,
                      response: Captions.Response): Result<string, CaptionError>
  {
    if outDir !in existing then Failure(Captions.Py(Json.TypeError))
    else
      match SubtitleUrlOf(tracks, code)
      case Failure(e) => Failure(Captions.Py(e))
      case Success(url) =>
        match Languages(tracks)
        case Failure(e) => Failure(Captions.Py(e))
        case Success(entries) =>
          match FileNameOf(entries, code)
          case Failure(e) => Failure(Captions.Py(e))
          case Success(name) =>
            if !Json.Truthy(url) then Failure(Captions.AnalyzerError)
            else if response.RequestFailed? then Failure(Captions.AnalyzerError)
            else if !name.Str? then Failure(Captions.Py(Json.TypeError))
            else Success(Paths.Join(outDir, name.s))
  }

  /** `download` up to the path it writes to, calling the lookups the way the source does. */
  method DownloadTarget(tracks: Value, code: string, existing: set<string>, outDir: string,
                        response: Captions.Response) returns (r: Result<string, CaptionError>)
    ensures r == DownloadOf(tracks, code, existing, outDir, response)
  {
    if outDir !in existing {
      return Failure(Captions.Py(Json.TypeError));
    }
    var url := SubtitleUrl(tracks, code);
    if url.Failure? {
      return Failure(Captions.Py(url.error));
    }
    var entries := GetLanguages(tracks);
    if entries.Failure? {
      return Failure(Captions.Py(entries.error));
    }
    var name := SelectFileName(entries.value, code);
    if name.Failure? {
      return Failure(Captions.Py(name.error));
    }
    if !Json.Truthy(url.value) || response.RequestFailed? {
      return Failure(Captions.AnalyzerError);
    }
    if !name.value.Str? {
      return Failure(Captions.Py(Json.TypeError));
    }
    r := Success(Paths.Join(outDir, name.value.s));
  }

  /**
    A missing directory, and a code no track has, are refused whatever the request would have
    answered: both checks come before it.
   */
  lemma DownloadRefusesBeforeRequest(tracks: Value, code: string, existing: set<string>, outDir: string,
                                     response: Captions.Response)
    ensures outDir !in existing ==>
              DownloadOf(tracks, code, existing, outDir, response) == Failure(Captions.Py(Json.TypeError))
    ensures outDir in existing && SubtitleUrlOf(tracks, code) == Success(Json.Null) &&
            Languages(tracks).Success? && FileNameOf(Languages(tracks).value, code).Success? ==>
              DownloadOf(tracks, code, existing, outDir, response) == Failure(Captions.AnalyzerError)
  {
  }

  /**
    A download that goes through writes, inside the output directory, a file named after the
    `lang` of the last language entry with the requested code.
   */
  lemma DownloadNamesFileAfterLanguage(tracks: Value, code: string, existing: set<string>, outDir: string,
                                       response: Captions.Response)
    requires DownloadOf(tracks, code, existing, outDir, response).Success?
    ensures var entries := Languages(tracks).value;
            exists k :: 0 <= k < |entries| && HasCode(entries[k], code) &&
              (forall j :: k < j < |entries| ==> !HasCode(entries[j], code)) &&
              var name := Json.Field(entries[k], "lang", Json.Null);
              name.Str? && DownloadOf(tracks, code, existing, outDir, response) == Success(Paths.Join(outDir, name.s))
  {
    var items := Json.Elements(tracks, Json.Subscript).value;
    var k := SubtitleUrlFound(tracks, code);
    SentinelHasNoName(code);
    LanguagesPerTrack(tracks);
    var entries := Languages(tracks).value;
    assert HasCode(entries[k], code);
    FileNameWellFormed(entries, code);
    var last := LastMatch(entries, code);
  }

  /** A URL the lookup found belongs to a track with the requested code. */
  lemma SubtitleUrlFound(tracks: Value, code: string) returns (k: nat)
    requires SubtitleUrlOf(tracks, code).Success? && Json.Truthy(SubtitleUrlOf(tracks, code).value)
    ensures Json.Elements(tracks, Json.Subscript).Success?
    ensures var items := Json.Elements(tracks, Json.Subscript).value;
            k < |items| && Json.Key(items[k], "languageCode") == Success(Json.Str(code))
  {
    var items := Json.Elements(tracks, Json.Subscript).value;
    var look := t => Look(code, t);
    Lists.FirstSomeAt(look, items);
    k :| 0 <= k < |items| && look(items[k]) == Lists.FirstSome(look, items) &&
         forall j :: 0 <= j < k ==> look(items[j]).None?;
  }

  /** The name loop raises `KeyError` on the `'Not Legend'` sentinel, which has no `code`. */
  lemma SentinelHasNoName(code: string)
    ensures FileNameOf(NoLegend, code) == Failure(Json.KeyError)
  {
    assert NoLegend[..0] == [];
  }

  /** A name loop that does not raise went through items that all have a `code`. */
  lemma {:induction false} FileNameWellFormed(entries: seq<Entry>, code: string)
    requires FileNameOf(entries, code).Success?
    ensures forall j :: 0 <= j < |entries| ==> "code" in entries[j]
  {
    forall j | 0 <= j < |entries| ensures "code" in entries[j] {
      if "code" !in entries[j] {
        FileNameFails(entries, code, j);
      }
    }
  }

  /**
    When every item has a `code` and some item has the requested one, the name is the `lang` of
    the LAST item with it.
   */
  lemma {:induction false} LastMatch(entries: seq<Entry>, code: string) returns (k: nat)
    requires forall j :: 0 <= j < |entries| ==> "code" in entries[j]
    requires exists j :: 0 <= j < |entries| && HasCode(entries[j], code)
    ensures k < |entries| && HasCode(entries[k], code)
    ensures forall j :: k < j < |entries| ==> !HasCode(entries[j], code)
    ensures FileNameOf(entries, code) == Success(Json.Field(entries[k], "lang", Json.Null))
    decreases |entries|
  {
    var n := |entries| - 1;
    var init := entries[..n];
    assert forall j :: 0 <= j < n ==> init[j] == entries[j];
    FileNameDefault(init, code);
    if HasCode(entries[n], code) {
      k := n;
    } else {
      k := LastMatch(init, code);
    }
  }

  // ---- `ParserPlaylist.__get_youtube_playlist_info` ----

  /** A dict of `for_ids`, as `create_urls` reads it back. */
  function VideoJson(e: Playlists.PlaylistVideo): Value {
    Json.Obj(map["index" := Json.Num(e.index), "videoId" := e.videoId, "title" := e.title,
                 "thumbnail" := e.thumbnail])
  }

  /** The dict `get_videos_playlist` returns. */
  function PlaylistJson(p: Playlists.Playlist): Value {
    Json.Obj(map["total" := Json.Num(p.total), "videos" := Json.Arr(Lists.Map(VideoJson, p.videos)),
                 "playlist_title" := Json.Str(p.playlistTitle)])
  }

  /** A dict of `videos`: `f"{index}.{title}"`, the watch link and the thumbnail. */
  datatype WatchVideo = WatchVideo(title: string, urlWatch: string, thumbnails: Value)

  /** The record `__get_youtube_playlist_info` returns. */
  datatype PlaylistInfo = PlaylistInfo(title: Value, description: Value, count: nat, image: Value,
                                       isPrivate: Value, videos: seq<WatchVideo>)

  /** The record for a playlist `get_videos_playlist` could not read. */
  const Unavailable: PlaylistInfo := PlaylistInfo(Json.Null, Json.Null, 0, Json.Null, Json.Bool(true), [])

  function WatchVideoOf(e: Playlists.UrlEntry): WatchVideo {
    WatchVideo(Json.Text(e.index) + "." + Json.Text(e.title), e.url, e.thumbnail)
  }

  /**
    `__get_youtube_playlist_info` after `get_videos_playlist` returned: the fixed record for
    `None`; otherwise one video per watch link, titled `index.title`, counted, with the scraped
    title, description and image given as inputs.
   */
  method GetPlaylistInfo(playlist: Option<Playlists.Playlist>, ogTitle: Value, ogDescription: Value, ogImage: Value)
    returns (r: Result<PlaylistInfo, Json.PyError>)
    ensures playlist.None? ==> r == Success(Unavailable)
    ensures playlist.Some? ==>
              var urls := Playlists.Urls(PlaylistJson(playlist.value));
              && (urls.Failure? ==> r == Failure(urls.error))
              && (urls.Success? ==>
                    && r.Success?
                    && r.value.title == ogTitle && r.value.description == ogDescription
                    && r.value.image == ogImage && r.value.isPrivate == Json.Null
                    && r.value.count == |r.value.videos| == |urls.value|
                    && forall i :: 0 <= i < |urls.value| ==> r.value.videos[i] == WatchVideoOf(urls.value[i]))
  {
    if playlist.None? {
      return Success(Unavailable);
    }
    var urls := Playlists.CreateUrls(PlaylistJson(playlist.value));
    if urls.Failure? {
      return Failure(urls.error);
    }
    var entries := urls.value;
    var videos: seq<WatchVideo> := [];
    var i := 0;
    while i < |entries|
      invariant 0 <= i <= |entries|
      invariant |videos| == i
      invariant forall j :: 0 <= j < i ==> videos[j] == WatchVideoOf(entries[j])
    {
      var e := entries[i];
      videos := videos + [WatchVideo(Json.Text(e.index) + "." + Json.Text(e.title), e.url, e.thumbnail)];
      i := i + 1;
    }
    r := Success(PlaylistInfo(ogTitle, ogDescription, |videos|, ogImage, Json.Null, videos));
  }

  /** The watch entry `create_urls` makes from one dict of `for_ids`. */
  lemma UrlEntryOfVideo(e: Playlists.PlaylistVideo)
    ensures VideoJson(e).Obj?
    ensures Playlists.HasVideoId(VideoJson(e)) == Json.Truthy(e.videoId)
    ensures Playlists.UrlEntryOf(VideoJson(e)) ==
            Playlists.UrlEntry(Json.Num(e.index), e.title, Playlists.WatchBase + Json.Text(e.videoId), e.thumbnail)
  {
  }

  /**
    On a playlist `get_videos_playlist` returned, every entry has a truthy `videoId`, so
    `create_urls` gives one watch link per entry, in order, each titled with its position in its
    list. The record then counts the playlist's videos, which `GetVideosPlaylist` shows is `total`.
   */
  lemma PlaylistLinksEveryVideo(p: Playlists.Playlist)
    requires forall e :: e in p.videos ==> Playlists.Kept(e)
    ensures var urls := Playlists.Urls(PlaylistJson(p));
            && urls.Success? && |urls.value| == |p.videos|
            && forall i :: 0 <= i < |p.videos| ==>
                 && urls.value[i].index == Json.Num(p.videos[i].index)
                 && urls.value[i].title == p.videos[i].title
                 && urls.value[i].url == Playlists.WatchBase + Json.Text(p.videos[i].videoId)
                 && WatchVideoOf(urls.value[i]).title == Json.Text(Json.Num(p.videos[i].index)) + "." + Json.Text(p.videos[i].title)
  {
    var items := Lists.Map(VideoJson, p.videos);
    Lists.MapAt(VideoJson, p.videos);
    assert Playlists.VideoRecords(PlaylistJson(p)) == Success(items);
    forall i | 0 <= i < |items| ensures Playlists.HasVideoId(items[i]) && items[i].Obj? {
      assert p.videos[i] in p.videos;
      UrlEntryOfVideo(p.videos[i]);
    }
    Playlists.UrlsSelect(items);
    Lists.FilterKeepsAll(Playlists.HasVideoId, items);
    var urls := Lists.Map(Playlists.UrlEntryOf, items);
    Lists.MapAt(Playlists.UrlEntryOf, items);
    assert Playlists.Urls(PlaylistJson(p)) == Success(urls);
    forall i | 0 <= i < |p.videos|
      ensures urls[i] == Playlists.UrlEntry(Json.Num(p.videos[i].index), p.videos[i].title,
                                            Playlists.WatchBase + Json.Text(p.videos[i].videoId), p.videos[i].thumbnail)
    {
      UrlEntryOfVideo(p.videos[i]);
    }
  }
}
