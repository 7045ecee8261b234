/**
  youtube_analyzer/captions.py: the translation URL rewrite of `TradutionCaptions`, the
  `Caption` a translation yields and the file name its `download` writes to, and
  `CaptionsParser`, which checks the caption tracks and picks the first one. The caption tracks
  arrive decoded from the player response; a URL arrives with its query already split by
  `parse_qs`, and the rewritten URL is represented by its new query string (the unchanged
  scheme, host and path that `urlunparse` puts around it are not part of this model).
 */
module Captions {
  import opened Wrappers
  import Strings
  import Lists
  import Paths
  import Json
  import Query

  type Value = Json.Value

  /** What the caption code raises. */
  datatype CaptionError =
    | Py(e: Json.PyError)       // a built-in exception from handling the decoded data
    | NotCaptions               // the video has no caption tracks
    | TranslationNotRequired    // the caption is already in the requested language
    | AnalyzerError             // YoutubeAnalyzerExceptions, from a caption download

  /** How many entries the `ordered_params` dict display has. */
  const FixedCount: nat := 27

  /**
    Entry `i` of the `ordered_params` dict display, in the order written: six values copied
    from the source URL, the requested `tlang`, and constants.
   */
  function OrderedParam(i: nat, v: string, ei: string, hl: string, expire: string,
                        signature: string, lang: string, tlang: string): Query.Param
    requires i < FixedCount
  {
    match i
    case 0 => ("v", v)
    case 1 => ("ei", ei)
    case 2 => ("caps", "asr")
    case 3 => ("opi", "112496729")
    case 4 => ("exp", "xbt")
    case 5 => ("xoaf", "5")
    case 6 => ("hl", hl)
    case 7 => ("ip", "0.0.0.0")
    case 8 => ("ipbits", "0")
    case 9 => ("expire", expire)
    case 10 => ("sparams", "ip,ipbits,expire,v,ei,caps,opi,exp,xoaf")
    case 11 => ("signature", signature)
    case 12 => ("key", "yt8")
    case 13 => ("lang", lang)
    case 14 => ("fmt", "srt")
    case 15 => ("xorb", "2")
    case 16 => ("xobt", "3")
    case 17 => ("xovt", "3")
    case 18 => ("tlang", tlang)
    case 19 => ("cbr", "Chrome")
    case 20 => ("cbrver", "131.0.0.0")
    case 21 => ("c", "WEB")
    case 22 => ("cver", "2.20241125.01.00")
    case 23 => ("cplayer", "UNIPLAYER")
    case 24 => ("cos", "Windows")
    case 25 => ("cosver", "10.0")
    case 26 => ("cplatform", "DESKTOP")
  }

  /** The `ordered_params` dict display. */
  function OrderedParams(v: string, ei: string, hl: string, expire: string, signature: string,
                         lang: string, tlang: string): seq<Query.Param>
  {
    seq(FixedCount, i requires 0 <= i < FixedCount => OrderedParam(i, v, ei, hl, expire, signature, lang, tlang))
  }

  /** The dict after `if kind is not None: ordered_params["kind"] = kind`. */
  function TranslationParams(q: Query.ParsedQuery, tlang: string): seq<Query.Param> {
    var d := OrderedParams(Query.First(q, "v", ""), Query.First(q, "ei", ""), Query.First(q, "hl", ""),
                           Query.First(q, "expire", ""), Query.First(q, "signature", ""),
                           Query.First(q, "lang", ""), tlang);
    var kind := Query.FirstOrNone(q, "kind");
    if kind.Some? then Query.Assign(d, "kind", kind.value) else d
  }

  /**
    `__convert_url_to_previous_format`: the new query string, unless the source `lang` already
    is `tlang`, which raises `TranslationNotRequiredError`.
   */
  function ConvertUrl(q: Query.ParsedQuery, tlang: string): Result<string, CaptionError> {
    var query := Query.QueryString(TranslationParams(q, tlang));
    if Query.First(q, "lang", "") == tlang then Failure(TranslationNotRequired) else Success(query)
  }

  /** The parameter `k` with the source query's first value for it, or `""` when it has none. */
  predicate CopiedFrom(q: Query.ParsedQuery, p: Query.Param, k: string) {
    p == (k, if k in q then q[k][0] else "")
  }

  /** The dict display holds its 27 entries, the copied values where written, and no `kind`. */
  lemma OrderedParamsFields(v: string, ei: string, hl: string, expire: string, signature: string,
                            lang: string, tlang: string)
    ensures var d := OrderedParams(v, ei, hl, expire, signature, lang, tlang);
            && |d| == FixedCount
            && d[0] == ("v", v) && d[1] == ("ei", ei) && d[6] == ("hl", hl) && d[9] == ("expire", expire)
            && d[11] == ("signature", signature) && d[13] == ("lang", lang)
            && d[14] == ("fmt", "srt") && d[18] == ("tlang", tlang)
            && !Query.HasKey(d, "kind")
  {
  }

  /**
    The rebuilt query holds the 27 fixed entries, then `kind` as the last parameter exactly when
    the source URL carried one. `v`, `ei`, `hl`, `expire`, `signature` and `lang` are copied
    from the source or default to `""`, `fmt` is always `srt`, and `tlang` is the requested
    language.
   */
  lemma TranslationParamsShape(q: Query.ParsedQuery, tlang: string)
    ensures var p := TranslationParams(q, tlang);
            && |p| == FixedCount + (if "kind" in q then 1 else 0)
            && CopiedFrom(q, p[0], "v") && CopiedFrom(q, p[1], "ei") && CopiedFrom(q, p[6], "hl")
            && CopiedFrom(q, p[9], "expire") && CopiedFrom(q, p[11], "signature")
            && CopiedFrom(q, p[13], "lang")
            && p[14] == ("fmt", "srt") && p[18] == ("tlang", tlang)
            && ("kind" in q ==> p[|p| - 1] == ("kind", q["kind"][0]))
            && (Query.HasKey(p, "kind") <==> "kind" in q)
  {
    var v, ei, hl := Query.First(q, "v", ""), Query.First(q, "ei", ""), Query.First(q, "hl", "");
    var expire, signature := Query.First(q, "expire", ""), Query.First(q, "signature", "");
    var lang := Query.First(q, "lang", "");
    var d := OrderedParams(v, ei, hl, expire, signature, lang, tlang);
    OrderedParamsFields(v, ei, hl, expire, signature, lang, tlang);
    var p := TranslationParams(q, tlang);
    if "kind" in q {
      Query.AssignNew(d, "kind", q["kind"][0]);
      assert p == d + [("kind", q["kind"][0])];
      assert p[FixedCount].0 == "kind";
    } else {
      assert p == d;
    }
  }

  /** The translation is refused exactly when the source language is the requested one. */
  lemma ConvertUrlRefuses(q: Query.ParsedQuery, tlang: string)
    ensures ConvertUrl(q, tlang).Failure? <==> ("lang" in q && q["lang"][0] == tlang) || ("lang" !in q && tlang == "")
    ensures ConvertUrl(q, tlang).Failure? ==> ConvertUrl(q, tlang).error == TranslationNotRequired
  {
  }

  /**
    Reading the new query back: when no key or value holds `&`, it splits into one
    `key=value` part per parameter, in the dict's order.
   */
  lemma ConvertUrlReadsBack(q: Query.ParsedQuery, tlang: string)
    requires ConvertUrl(q, tlang).Success?
    requires Query.Separable(TranslationParams(q, tlang))
    ensures var p := TranslationParams(q, tlang);
            var parts := Strings.Split(ConvertUrl(q, tlang).value, '&');
            |parts| == |p| && forall i :: 0 <= i < |parts| ==> parts[i] == p[i].0 + "=" + p[i].1
  {
    TranslationParamsShape(q, tlang);
    Query.QueryStringFields(TranslationParams(q, tlang));
  }

  /** A `Caption`: the dict it wraps. */
  datatype Caption = Caption(data: map<string, Value>)

  /** The `lang` property: `data.get('code')`. */
  function Lang(c: Caption): Value {
    Json.Field(c.data, "code", Json.Null)
  }

  /** The `url` property: `data.get('url')`. */
  function Url(c: Caption): Value {
    Json.Field(c.data, "url", Json.Null)
  }

  /** `TradutionCaptions(url).translate(tlang)`: a caption for `tlang` at the rewritten URL. */
  function Translate(q: Query.ParsedQuery, tlang: string): Result<Caption, CaptionError> {
    var newUrl :- ConvertUrl(q, tlang);
    Success(Caption(map["code" := Json.Str(tlang), "url" := Json.Str(newUrl)]))
  }

  /** What `requests.get` gives the caption download: a refused request, or a page. */
  datatype Response = RequestFailed | Page(text: string)

  const NotFoundMarker: string := "<title>Error 404 (Not Found)!!"

  /** `f'{self.lang}{exte}'`. */
  function CaptionFileName(c: Caption): string {
    Json.Text(Lang(c)) + ".srt"
  }

  /**
    The checks of `Caption.download` and the path it writes to: a missing directory raises
    `TypeError` and a missing URL `YoutubeAnalyzerExceptions`, both before the request; a refused
    request or a 404 page raises `YoutubeAnalyzerExceptions`.
   */
  function DownloadPath(c: Caption, existing: set<string>, outputDir: string, response: Response)
    : Result<string, CaptionError>
  {
    if outputDir !in existing then Failure(Py(Json.TypeError))
    else if !Json.Truthy(Url(c)) then Failure(AnalyzerError)
    else if response.RequestFailed? || Strings.HasInfix(response.text, NotFoundMarker) then Failure(AnalyzerError)
    else Success(Paths.Join(outputDir, CaptionFileName(c)))
  }

  /**
    A missing directory and a caption without a URL are refused whatever the request would have
    answered, both before it; a refused request and a 404 page are refused too, and nothing else
    is. A download that goes through writes `<code>.srt` inside the output directory.
   */
  lemma CaptionDownloadChecks(c: Caption, existing: set<string>, outputDir: string, response: Response)
    ensures outputDir !in existing ==> DownloadPath(c, existing, outputDir, response) == Failure(Py(Json.TypeError))
    ensures outputDir in existing && !Json.Truthy(Url(c)) ==>
              DownloadPath(c, existing, outputDir, response) == Failure(AnalyzerError)
    ensures response.Page? && Strings.HasInfix(response.text, NotFoundMarker) ==>
              DownloadPath(c, existing, outputDir, response).Failure?
    ensures DownloadPath(c, existing, outputDir, response).Success? <==>
              && outputDir in existing && Json.Truthy(Url(c))
              && response.Page? && !Strings.HasInfix(response.text, NotFoundMarker)
    ensures DownloadPath(c, existing, outputDir, response).Success? ==>
              DownloadPath(c, existing, outputDir, response).value == Paths.Join(outputDir, Json.Text(Lang(c)) + ".srt")
  {
  }

  /**
    A translated caption carries the requested code, and downloading it writes `<tlang>.srt`
    inside the output directory.
   */
  lemma TranslatedCaptionFile(q: Query.ParsedQuery, tlang: string, existing: set<string>,
                              outputDir: string, text: string)
    requires Query.First(q, "lang", "") != tlang
    requires outputDir in existing && '/' !in tlang && !Strings.HasInfix(text, NotFoundMarker)
    ensures Translate(q, tlang).Success? && Lang(Translate(q, tlang).value) == Json.Str(tlang)
    ensures var path := DownloadPath(Translate(q, tlang).value, existing, outputDir, Page(text));
            path == Success(Paths.Join(outputDir, tlang + ".srt")) &&
            Paths.BaseName(path.value) == tlang + ".srt"
  {
    var c := Translate(q, tlang).value;
    TranslatedUrlNonEmpty(q, tlang);
    assert DownloadPath(c, existing, outputDir, Page(text)) == Success(Paths.Join(outputDir, tlang + ".srt"));
    Paths.BaseNameOfJoin(outputDir, tlang + ".srt");
  }

  /** The rewritten URL starts with the `v=` pair, so it is a non-empty string and truthy. */
  lemma TranslatedUrlNonEmpty(q: Query.ParsedQuery, tlang: string)
    requires Query.First(q, "lang", "") != tlang
    ensures Translate(q, tlang).Success? && Json.Truthy(Url(Translate(q, tlang).value))
  {
    var p := TranslationParams(q, tlang);
    TranslationParamsShape(q, tlang);
    Lists.MapAt(Query.Pair, p);
    JoinKeepsFirst(Lists.Map(Query.Pair, p), '&');
  }

  /** A join starts with its first part. */
  lemma JoinKeepsFirst(parts: seq<string>, c: char)
    requires parts != []
    ensures parts[0] <= Strings.Join(parts, c)
  {
  }

  // ---- CaptionsParser ----

  /** A `CaptionsParser` holds the tracks it was built with. */
  datatype CaptionsParser = CaptionsParser(tracks: Value)

  /** `CaptionsParser(caption_tracks)`: `None` and `'Not Captions'` raise `NotCaptions`. */
  function NewCaptionsParser(tracks: Value): (r: Result<CaptionsParser, CaptionError>)
    ensures r.Failure? <==> tracks == Json.Null || tracks == Json.Str("Not Captions")
    ensures r.Failure? ==> r.error == NotCaptions
    ensures r.Success? ==> r.value.tracks == tracks
  {
    if tracks == Json.Str("Not Captions") || tracks == Json.Null then Failure(NotCaptions)
    else Success(CaptionsParser(tracks))
  }

  const Srv3: string := "srv3"
  const Srt: string := "srt"

  /** `v.replace('srv3', 'srt')`: only a string has `replace`. */
  function ReplaceSrv3(v: Value): Result<Value, Json.PyError> {
    if v.Str? then Success(Json.Str(Strings.ReplaceAll(v.s, Srv3, Srt))) else Failure(Json.AttributeError)
  }

  /** The dict the loop of `get_caption_for_video` appends for one track, in evaluation order. */
  function TrackEntry(i: nat, track: Value): Result<seq<map<string, Value>>, Json.PyError> {
    var name :- Json.Key(track, "name");
    var runs :- Json.Key(name, "runs");
    var run :- Json.At(runs, 0);
    var lang :- Json.Key(run, "text");
    var code :- Json.Key(track, "languageCode");
    var baseUrl :- Json.Key(track, "baseUrl");
    var url :- ReplaceSrv3(baseUrl);
    Success([map["lang" := lang, "code" := code, "url" := url]])
  }

  /** `Caption(captions_data=dt[0])`, where an empty `dt` raises `IndexError`. */
  function FirstCaption(dt: seq<map<string, Value>>): Result<Caption, CaptionError> {
    if dt == [] then Failure(Py(Json.IndexError)) else Success(Caption(dt[0]))
  }

  /** What `get_caption_for_video` returns or raises. */
  function CaptionFor(p: CaptionsParser): Result<Caption, CaptionError> {
    match Json.Contains(p.tracks, "Not Legend")
    case Failure(e) => Failure(Py(e))
    case Success(notLegend) =>
      if notLegend then Failure(NotCaptions)
      else
        match Json.Elements(p.tracks, Json.Subscript)
        case Failure(e) => Failure(Py(e))
        case Success(items) =>
          match Lists.Collect(TrackEntry, items)
          case Failure(e) => Failure(Py(e))
          case Success(dt) => FirstCaption(dt)
  }

  /**
    `get_caption_for_video`: `'Not Legend'` among the tracks raises `NotCaptions`; otherwise the
    loop builds one dict per track and the first one becomes the caption.
   */
  method GetCaptionForVideo(p: CaptionsParser) returns (r: Result<Caption, CaptionError>)
    ensures r == CaptionFor(p)
  {
    var dt: seq<map<string, Value>> := [];
    var notLegend := Json.Contains(p.tracks, "Not Legend");
    if notLegend.Failure? {
      return Failure(Py(notLegend.error));
    }
    if notLegend.value {
      return Failure(NotCaptions);
    }
    var tracks := Json.Elements(p.tracks, Json.Subscript);
    if tracks.Failure? {
      return Failure(Py(tracks.error));
    }
    var items := tracks.value;
    var i := 0;
    while i < |items|
      invariant 0 <= i <= |items|
      invariant Lists.Collect(TrackEntry, items[..i]) == Success(dt)
    {
      Lists.CollectStep(TrackEntry, items, i);
      var d := TrackEntry(i, items[i]);
      if d.Failure? {
        Lists.CollectFailureStays(TrackEntry, items, i + 1);
        return Failure(Py(d.error));
      }
      dt := dt + d.value;
      i := i + 1;
    }
    Lists.TakeStep(items, i);
    r := FirstCaption(dt);
  }

  /** A result that starts with `rv3` comes from a text that starts with `rv3`. */
  lemma RestoresRv3(t: string)
    ensures var r := Strings.ReplaceAll(t, Srv3, Srt);
            |r| >= 3 && r[..3] == "rv3" ==> |t| >= 3 && t[..3] == "rv3"
  {
    var r := Strings.ReplaceAll(t, Srv3, Srt);
    if |r| >= 3 && r[..3] == "rv3" {
      assert r[0] == 'r' && r[1] == 'v' && r[2] == '3';
      Strings.ReplaceAllHead(t, Srv3, Srt);
      assert Strings.ReplaceAll(t[1..], Srv3, Srt)[0] == r[1];
      Strings.ReplaceAllHead(t[1..], Srv3, Srt);
      assert t[1..][1..] == t[2..];
      assert Strings.ReplaceAll(t[2..], Srv3, Srt)[0] == r[2];
      Strings.ReplaceAllHead(t[2..], Srv3, Srt);
    }
  }

  /** After `.replace('srv3', 'srt')` no `srv3` is left, not even one the replacements could form. */
  lemma {:induction false} NoSrv3Left(s: string)
    ensures !Strings.HasInfix(Strings.ReplaceAll(s, Srv3, Srt), Srv3)
    decreases |s|
  {
    if s != [] {
      var r := Strings.ReplaceAll(s, Srv3, Srt);
      if Srv3 <= s {
        var rest := Strings.ReplaceAll(s[4..], Srv3, Srt);
        NoSrv3Left(s[4..]);
        assert r == Srt + rest;
        assert r[3..] == rest;
        assert !(Srv3 <= r[2..]) by { assert r[2..][0] == 't'; }
        assert !(Srv3 <= r[1..]) by { assert r[1..][0] == 'r'; }
        assert !(Srv3 <= r) by { assert r[2] == 't'; }
        assert r[1..][1..] == r[2..] && r[2..][1..] == r[3..];
        assert !Strings.HasInfix(r[3..], Srv3);
        assert !Strings.HasInfix(r[2..], Srv3);
        assert !Strings.HasInfix(r[1..], Srv3);
      } else {
        NoSrv3Left(s[1..]);
        RestoresRv3(s[1..]);
      }
    }
  }

  /**
    The caption `get_caption_for_video` returns is the first track's: its language code, and
    its `baseUrl` with every `srv3` turned into `srt`, so no `srv3` remains. Every track was
    read on the way, so the tracks form a non-empty list.
   */
  lemma CaptionIsFirstTrack(p: CaptionsParser)
    requires CaptionFor(p).Success?
    ensures p.tracks.Arr? && p.tracks.items != []
    ensures var c := CaptionFor(p).value;
            var track := p.tracks.items[0];
            && Json.Key(track, "languageCode") == Success(Lang(c))
            && Json.Key(track, "baseUrl").Success? && Json.Key(track, "baseUrl").value.Str?
            && Url(c) == Json.Str(Strings.ReplaceAll(Json.Key(track, "baseUrl").value.s, Srv3, Srt))
            && !Strings.HasInfix(Url(c).s, Srv3)
  {
    var items := Json.Elements(p.tracks, Json.Subscript).value;
    Lists.CollectSingles(TrackEntry, items);
    NoSrv3Left(Json.Key(items[0], "baseUrl").value.s);
  }

  /** `'Not Legend'` in the tracks raises `NotCaptions`; an empty track list raises `IndexError`. */
  lemma CaptionForRejects(p: CaptionsParser)
    ensures Json.Contains(p.tracks, "Not Legend") == Success(true) ==> CaptionFor(p) == Failure(NotCaptions)
    ensures p.tracks == Json.Arr([]) ==> CaptionFor(p) == Failure(Py(Json.IndexError))
  {
  }
}
