/**
 * The YouTube client (`pkg/youtube`): URL validation, the choice of a caption
 * track in the JSON that yt-dlp prints, the dispatch of the downloaded track
 * to a caption decoder, and the metadata and combined lookups.
 *
 * yt-dlp and the HTTP download are not run: each tool run is an input (its
 * exit status, its standard output as decoded JSON and its standard error),
 * and the download is a function from the track URL to the bytes it returns
 * or to the reason it failed.
 */
module YoutubeClient {
  import opened Wrappers
  import opened Strings
  import opened JsonValue
  import opened SubtitleParser

  /** The errors the client reports: its sentinels, and the wrapped failures of each step. */
  datatype VideoError =
    | InvalidURL
    | NoTranscript
    | VideoPrivate
    | CommandFailed(stderr: string)
    | VideoDataUnreadable
    | MetadataUnreadable
    | DownloadFailed(reason: string)
    | SubtitleUnparsable(reason: string)
    | TranscriptFailed(cause: VideoError)

  datatype Transcript = Transcript(text: string, language: string)

  datatype Metadata = Metadata(title: string, duration: int, channel: string)

  /** The combined lookup: the metadata is always there, the transcript may be missing. */
  datatype VideoInfo = VideoInfo(transcript: Option<Transcript>, metadata: Metadata)

  /**
   * One run of yt-dlp: whether it exited successfully, its standard output as
   * decoded JSON (`None` when it is not JSON) and its standard error.
   */
  datatype ToolRun = ToolRun(succeeded: bool, stdout: Option<Json>, stderr: string)

  /** Downloaded caption bytes: as text, and as decoded JSON when they are JSON. */
  datatype Payload = Payload(text: string, json: Option<Json>)

  // ---------------------------------------------------------------------------
  // URL validation
  // ---------------------------------------------------------------------------

  /** `[\w-]`: an ASCII letter or digit, `_` or `-`. */
  predicate IsIdChar(c: char) {
    ('a' <= c <= 'z') || ('A' <= c <= 'Z') || ('0' <= c <= '9') || c == '_' || c == '-'
  }

  /** The three page kinds the patterns accept, in the order they are tried. */
  const VideoPaths: seq<string> := ["youtube.com/watch?v=", "youtu.be/", "youtube.com/embed/"]

  /** `s` starts with `path` followed by at least one `[\w-]` character. */
  predicate PathThenId(s: string, path: string) {
    HasPrefix(s, path) && |s| > |path| && IsIdChar(s[|path|])
  }

  /** `(www\.)?` then `path` then `[\w-]+` match at the start of `s`. */
  predicate HostPathThenId(s: string, path: string) {
    PathThenId(s, path) || (HasPrefix(s, "www.") && PathThenId(s[4..], path))
  }

  /** The anchored pattern `^https?://(www\.)?<path>[\w-]+` matches `url`. */
  predicate MatchesPattern(url: string, path: string) {
    || (HasPrefix(url, "http://") && HostPathThenId(url[7..], path))
    || (HasPrefix(url, "https://") && HostPathThenId(url[8..], path))
  }

  /** The pattern loop: one of `paths`, tried in order, matches. */
  predicate AnyPatternMatches(url: string, paths: seq<string>) {
    paths != [] && (MatchesPattern(url, paths[0]) || AnyPatternMatches(url, paths[1..]))
  }

  /** `ValidateURL`: `None` for an accepted URL, the invalid-URL error otherwise. */
  function ValidateURL(url: string): (err: Option<VideoError>)
    ensures err.None? || err == Some(InvalidURL)
  {
    if AnyPatternMatches(url, VideoPaths) then None else Some(InvalidURL)
  }

  predicate IsScheme(s: string) { s == "http://" || s == "https://" }

  predicate IsWwwPart(s: string) { s == "" || s == "www." }

  /** A page kind followed by an identifier character and anything else. */
  lemma PathThenIdOf(path: string, c: char, rest: string)
    requires IsIdChar(c)
    ensures PathThenId(path + [c] + rest, path)
  {
    var t := path + [c] + rest;
    assert t[..|path|] == path && t[|path|] == c;
  }

  lemma HostPathThenIdOf(www: string, t: string, path: string)
    requires IsWwwPart(www) && PathThenId(t, path)
    ensures HostPathThenId(www + t, path)
  {
    if www == "www." {
      var s := www + t;
      assert s[..4] == www && s[4..] == t;
    } else {
      assert www + t == t;
    }
  }

  lemma MatchesPatternOf(scheme: string, s: string, path: string)
    requires IsScheme(scheme) && HostPathThenId(s, path)
    ensures MatchesPattern(scheme + s, path)
  {
    var url := scheme + s;
    assert url[..|scheme|] == scheme && url[|scheme|..] == s;
  }

  /** A URL matching the pattern of one page kind passes the pattern loop. */
  lemma AnyPatternOf(url: string, p: nat)
    requires p < |VideoPaths| && MatchesPattern(url, VideoPaths[p])
    ensures AnyPatternMatches(url, VideoPaths)
  {
    var rest1 := VideoPaths[1..];
    var rest2 := rest1[1..];
    assert rest1[0] == VideoPaths[1] && rest2[0] == VideoPaths[2];
    if p == 2 {
      assert AnyPatternMatches(url, rest2);
    }
    if p >= 1 {
      assert AnyPatternMatches(url, rest1);
    }
  }

  lemma UrlShape(scheme: string, www: string, path: string, c: char, rest: string)
    ensures scheme + (www + (path + [c] + rest)) == scheme + www + path + [c] + rest
  {
  }

  /**
   * Every URL made of a scheme, an optional `www.`, one of the three page
   * kinds, an identifier character and anything at all is accepted.
   */
  lemma ValidateURLAccepts(scheme: string, www: string, p: nat, c: char, rest: string)
    requires IsScheme(scheme) && IsWwwPart(www) && p < |VideoPaths| && IsIdChar(c)
    ensures ValidateURL(scheme + www + VideoPaths[p] + [c] + rest).None?
  {
    var path := VideoPaths[p];
    var t := path + [c] + rest;
    PathThenIdOf(path, c, rest);
    HostPathThenIdOf(www, t, path);
    MatchesPatternOf(scheme, www + t, path);
    UrlShape(scheme, www, path, c, rest);
    AnyPatternOf(scheme + www + path + [c] + rest, p);
  }

  /** The scheme part of a URL that matches a pattern. */
  lemma SchemeShape(url: string, path: string) returns (scheme: string, s: string)
    requires MatchesPattern(url, path)
    ensures IsScheme(scheme) && HostPathThenId(s, path) && url == scheme + s
  {
    if HasPrefix(url, "http://") && HostPathThenId(url[7..], path) {
      scheme, s := "http://", url[7..];
    } else {
      scheme, s := "https://", url[8..];
    }
    assert url == url[..|scheme|] + url[|scheme|..];
  }

  /** The `www.` part of what follows the scheme. */
  lemma HostShape(s: string, path: string) returns (www: string, c: char, rest: string)
    requires HostPathThenId(s, path)
    ensures IsWwwPart(www) && IsIdChar(c) && s == www + path + [c] + rest
  {
    var t: string;
    if PathThenId(s, path) {
      www, t := "", s;
    } else {
      www, t := "www.", s[4..];
      assert s == s[..4] + s[4..];
    }
    c, rest := t[|path|], t[|path| + 1..];
    assert t == t[..|path|] + [t[|path|]] + t[|path| + 1..];
  }

  /** The pattern loop accepts a URL only through one of the three patterns. */
  lemma MatchingPattern(url: string) returns (p: nat)
    requires AnyPatternMatches(url, VideoPaths)
    ensures p < |VideoPaths| && MatchesPattern(url, VideoPaths[p])
  {
    var rest1 := VideoPaths[1..];
    var rest2 := rest1[1..];
    assert rest1[0] == VideoPaths[1] && rest2[0] == VideoPaths[2] && rest2[1..] == [];
    if MatchesPattern(url, VideoPaths[0]) {
      p := 0;
    } else if MatchesPattern(url, VideoPaths[1]) {
      p := 1;
    } else {
      assert AnyPatternMatches(url, rest1);
      assert AnyPatternMatches(url, rest2);
      assert !AnyPatternMatches(url, rest2[1..]);
      assert MatchesPattern(url, rest2[0]);
      p := 2;
    }
  }

  /**
   * Every accepted URL has that shape: together with `ValidateURLAccepts`,
   * `ValidateURL` accepts exactly the URLs of the three forms.
   */
  lemma ValidateURLAcceptedShape(url: string)
    returns (scheme: string, www: string, p: nat, c: char, rest: string)
    requires ValidateURL(url).None?
    ensures IsScheme(scheme) && IsWwwPart(www) && p < |VideoPaths| && IsIdChar(c)
    ensures url == scheme + www + VideoPaths[p] + [c] + rest
  {
    p := MatchingPattern(url);
    var s;
    scheme, s := SchemeShape(url, VideoPaths[p]);
    www, c, rest := HostShape(s, VideoPaths[p]);
    UrlCompose(url, scheme, s, www, VideoPaths[p], c, rest);
  }

  lemma UrlCompose(url: string, scheme: string, s: string, www: string, path: string, c: char, rest: string)
    requires url == scheme + s && s == www + path + [c] + rest
    ensures url == scheme + www + path + [c] + rest
  {
    UrlShape(scheme, www, path, c, rest);
  }

  // ---------------------------------------------------------------------------
  // Classifying a failed tool run
  // ---------------------------------------------------------------------------

  /** The three phrases in yt-dlp's standard error that mean the video cannot be seen. */
  const UnavailablePhrases: seq<string> := ["Private video", "Video unavailable", "This video is not available"]

  predicate ReportsUnavailable(stderr: string) {
    exists k :: 0 <= k < |UnavailablePhrases| && Contains(stderr, UnavailablePhrases[k])
  }

  /**
   * The error of a failed yt-dlp run: the private-video error when standard
   * error names one of the three phrases, otherwise the command failure
   * carrying standard error.
   */
  function ClassifyToolFailure(stderr: string): (e: VideoError)
    ensures e == VideoPrivate || e == CommandFailed(stderr)
  {
    if Contains(stderr, UnavailablePhrases[0]) || Contains(stderr, UnavailablePhrases[1])
      || Contains(stderr, UnavailablePhrases[2])
    then VideoPrivate
    else CommandFailed(stderr)
  }

  /** The failure is classified as a private video exactly when one of the phrases occurs. */
  lemma ClassifyToolFailurePrivate(stderr: string)
    ensures ClassifyToolFailure(stderr) == VideoPrivate <==> ReportsUnavailable(stderr)
  {
    if ReportsUnavailable(stderr) {
      var k :| 0 <= k < |UnavailablePhrases| && Contains(stderr, UnavailablePhrases[k]);
      assert k == 0 || k == 1 || k == 2;
    }
  }

  /** Any message that mentions a phrase, wherever it appears, is a private video. */
  lemma PhraseMeansPrivate(before: string, k: nat, after: string)
    requires k < |UnavailablePhrases|
    ensures ClassifyToolFailure(before + UnavailablePhrases[k] + after) == VideoPrivate
  {
    ContainsInfix(before, UnavailablePhrases[k], after);
    ClassifyToolFailurePrivate(before + UnavailablePhrases[k] + after);
  }

  // ---------------------------------------------------------------------------
  // Choosing a caption track
  // ---------------------------------------------------------------------------

  /** The formats in order of preference. */
  const FormatPreference: seq<string> := ["json3", "vtt", "srv3", "srv2", "srv1"]

  /** A string under `key` of an object; anything else (missing key, other type, not an object) is `None`. */
  function StringField(j: Json, key: string): (r: Option<string>)
    ensures r.Some? <==> Field(j, key).JString?
    ensures r.Some? ==> r.value == Field(j, key).s
  {
    match Field(j, key)
    case JString(t) => Some(t)
    case _ => None
  }

  /** An entry of the `en` list that offers `format` with a string URL. */
  predicate Offers(entry: Json, format: string) {
    StringField(entry, "ext") == Some(format) && StringField(entry, "url").Some?
  }

  /** The inner loop: the position of the first entry that offers `format`, or `|entries|`. */
  function FirstOffer(entries: seq<Json>, format: string): (i: nat)
    ensures i <= |entries|
    ensures i < |entries| ==> Offers(entries[i], format)
    ensures forall k :: 0 <= k < i ==> !Offers(entries[k], format)
  {
    if entries == [] then 0
    else if Offers(entries[0], format) then 0
    else 1 + FirstOffer(entries[1..], format)
  }

  /** The URL of the first entry that offers `format`, if there is one. */
  function OfferedUrl(entries: seq<Json>, format: string): Option<string> {
    var i := FirstOffer(entries, format);
    if i < |entries| then StringField(entries[i], "url") else None
  }

  /** The outer loop: the formats in `prefs`, in order, each searched for in the whole list. */
  function FindPreferred(entries: seq<Json>, prefs: seq<string>): (r: Option<(string, string)>)
    ensures r.Some? ==> r.value.1 in prefs && OfferedUrl(entries, r.value.1) == Some(r.value.0)
  {
    if prefs == [] then None
    else
      match OfferedUrl(entries, prefs[0])
      case Some(u) => Some((u, prefs[0]))
      case None => FindPreferred(entries, prefs[1..])
  }

  /** When no format is offered, the first entry's URL and its `ext`, or `"unknown"`. */
  function FirstEntryTrack(entry: Json): (string, string) {
    match StringField(entry, "url")
    case Some(u) =>
      (u, match StringField(entry, "ext") case Some(x) => x case None => "unknown")
    case None => ("", "")
  }

  /**
   * `extractSubtitleURL`: searches the `en` list, format by format, then
   * falls back to its first entry. `("", "")` means nothing was found.
   */
  function ExtractSubtitleURL(subs: map<string, Json>, prefs: seq<string>): (r: (string, string))
    ensures !("en" in subs && subs["en"].JArray? && subs["en"].items != []) ==> r == ("", "")
  {
    if "en" in subs && subs["en"].JArray? && subs["en"].items != [] then
      var entries := subs["en"].items;
      match FindPreferred(entries, prefs)
      case Some(found) => found
      case None => FirstEntryTrack(entries[0])
    else ("", "")
  }

  /** The track one caption collection of the video data yields; a collection that is not an object yields nothing. */
  function CaptionTrack(videoData: map<string, Json>, key: string): (string, string) {
    if key in videoData && videoData[key].JObject? then ExtractSubtitleURL(videoData[key].fields, FormatPreference)
    else ("", "")
  }

  /**
   * `findBestSubtitleURL`: the automatic captions first, then the uploaded
   * subtitles; a track whose URL is empty does not count.
   */
  function FindBestSubtitleURL(videoData: map<string, Json>): (r: (string, string))
    ensures r.0 == "" ==> r == ("", "")
    ensures CaptionTrack(videoData, "automatic_captions").0 != "" ==> r == CaptionTrack(videoData, "automatic_captions")
    ensures CaptionTrack(videoData, "automatic_captions").0 == "" && CaptionTrack(videoData, "subtitles").0 != ""
      ==> r == CaptionTrack(videoData, "subtitles")
  {
    var auto := CaptionTrack(videoData, "automatic_captions");
    if auto.0 != "" then auto
    else
      var subs := CaptionTrack(videoData, "subtitles");
      if subs.0 != "" then subs else ("", "")
  }

  /**
   * The format search picks the first format of `prefs` that some entry
   * offers, and the first such entry: a format's place in `prefs` counts
   * before an entry's place in the list.
   */
  lemma {:induction false} FindPreferredFirst(entries: seq<Json>, prefs: seq<string>, p: nat)
    requires p < |prefs| && OfferedUrl(entries, prefs[p]).Some?
    requires forall q :: 0 <= q < p ==> OfferedUrl(entries, prefs[q]).None?
    ensures FindPreferred(entries, prefs) == Some((OfferedUrl(entries, prefs[p]).value, prefs[p]))
    decreases p
  {
    if p > 0 {
      assert OfferedUrl(entries, prefs[0]).None?;
      FindPreferredFirst(entries, prefs[1..], p - 1);
    }
  }

  /** The format search finds nothing exactly when no entry offers any of the formats. */
  lemma {:induction false} FindPreferredNone(entries: seq<Json>, prefs: seq<string>)
    ensures FindPreferred(entries, prefs).None?
        <==> forall q, k :: 0 <= q < |prefs| && 0 <= k < |entries| ==> !Offers(entries[k], prefs[q])
  {
    if prefs != [] {
      FindPreferredNone(entries, prefs[1..]);
      if FindPreferred(entries, prefs).None? {
        forall q, k | 0 <= q < |prefs| && 0 <= k < |entries| ensures !Offers(entries[k], prefs[q]) {
          if q > 0 {
            assert prefs[q] == prefs[1..][q - 1];
          }
        }
      } else if OfferedUrl(entries, prefs[0]).Some? {
        var k := FirstOffer(entries, prefs[0]);
        assert Offers(entries[k], prefs[0]);
      } else {
        var q, k :| 0 <= q < |prefs[1..]| && 0 <= k < |entries| && Offers(entries[k], prefs[1..][q]);
        assert Offers(entries[k], prefs[q + 1]);
      }
    }
  }

  /** An offered format yields the URL of the first entry offering it. */
  lemma OfferedUrlOfEntry(entries: seq<Json>, format: string, j: nat)
    requires j < |entries| && Offers(entries[j], format)
    ensures FirstOffer(entries, format) <= j
    ensures OfferedUrl(entries, format) == StringField(entries[FirstOffer(entries, format)], "url")
    ensures OfferedUrl(entries, format).Some?
  {
  }

  /** A `json3` entry anywhere in the list wins over every other entry, whatever its position. */
  lemma Json3Wins(subs: map<string, Json>, j: nat)
    requires "en" in subs && subs["en"].JArray?
    requires j < |subs["en"].items| && Offers(subs["en"].items[j], "json3")
    ensures ExtractSubtitleURL(subs, FormatPreference).1 == "json3"
    ensures ExtractSubtitleURL(subs, FormatPreference).0
         == StringField(subs["en"].items[FirstOffer(subs["en"].items, "json3")], "url").value
  {
    var entries := subs["en"].items;
    OfferedUrlOfEntry(entries, "json3", j);
    FindPreferredFirst(entries, FormatPreference, 0);
  }

  /**
   * With none of the preferred formats offered, only the first entry is
   * looked at: its URL and its `ext` (or `"unknown"`), or nothing when its
   * URL is not a string, whatever the later entries hold.
   */
  lemma FallbackToFirstEntry(subs: map<string, Json>)
    requires "en" in subs && subs["en"].JArray? && subs["en"].items != []
    requires forall q, k :: 0 <= q < |FormatPreference| && 0 <= k < |subs["en"].items|
               ==> !Offers(subs["en"].items[k], FormatPreference[q])
    ensures ExtractSubtitleURL(subs, FormatPreference) == FirstEntryTrack(subs["en"].items[0])
    ensures StringField(subs["en"].items[0], "url").None? ==> ExtractSubtitleURL(subs, FormatPreference) == ("", "")
  {
    FindPreferredNone(subs["en"].items, FormatPreference);
  }

  // ---------------------------------------------------------------------------
  // Fetching a transcript
  // ---------------------------------------------------------------------------

  /**
   * Standard output decoded into `map[string]interface{}`: an object gives
   * its fields, `null` gives an empty map, anything else is an error.
   */
  function VideoData(stdout: Option<Json>): Option<map<string, Json>> {
    match stdout
    case Some(JObject(fields)) => Some(fields)
    case Some(JNull) => Some(map[])
    case _ => None
  }

  predicate IsServerFormat(format: string) { format == "srv1" || format == "srv2" || format == "srv3" }

  /** The decoders a caption track can be given to. */
  datatype Decoder = Json3Decoder | VttDecoder | Json3ThenVtt

  /**
   * The format switch: `json3` goes to the JSON3 decoder, `vtt` and every
   * unknown format to the WebVTT reader, the server formats to JSON3 with
   * WebVTT as the fallback.
   */
  function DecoderFor(format: string): (d: Decoder)
    ensures d == Json3Decoder <==> format == "json3"
    ensures d == Json3ThenVtt <==> IsServerFormat(format)
  {
    if format == "json3" then Json3Decoder
    else if format == "vtt" then VttDecoder
    else if IsServerFormat(format) then Json3ThenVtt
    else VttDecoder
  }

  /** The text the chosen decoder makes of the caption bytes, or `None` when it fails. */
  function SubtitleText(format: string, data: Payload): Option<string> {
    match DecoderFor(format)
    case Json3Decoder => Json3Transcript(data.json)
    case VttDecoder => Some(VttTranscript(data.text))
    case Json3ThenVtt =>
      if Json3Transcript(data.json).Some? then Json3Transcript(data.json) else Some(VttTranscript(data.text))
  }

  /** Only the `json3` format can fail to decode: the WebVTT reader, alone or as the fallback, never fails. */
  lemma SubtitleTextFails(format: string, data: Payload)
    ensures SubtitleText(format, data).None? <==> format == "json3" && Json3Transcript(data.json).None?
  {
  }

  /** What fetching a transcript gives, step by step. */
  function TranscriptOutcome(url: string, run: ToolRun, fetch: string -> Result<Payload, string>): Result<Transcript, VideoError> {
    if ValidateURL(url).Some? then Failure(InvalidURL)
    else if !run.succeeded then Failure(ClassifyToolFailure(run.stderr))
    else if VideoData(run.stdout).None? then Failure(VideoDataUnreadable)
    else
      var track := FindBestSubtitleURL(VideoData(run.stdout).value);
      if track.0 == "" then Failure(NoTranscript)
      else if fetch(track.0).Failure? then Failure(DownloadFailed(fetch(track.0).error))
      else
        match SubtitleText(track.1, fetch(track.0).value)
        case None => Failure(SubtitleUnparsable("failed to parse subtitle"))
        case Some(text) =>
          var cleaned := CleanTranscript(text);
          if cleaned == "" then Failure(NoTranscript) else Success(Transcript(cleaned, "en"))
  }

  /** A transcript is only ever returned for a valid URL and a successful run, and it is cleaned, non-empty and English. */
  lemma TranscriptOutcomeSuccess(url: string, run: ToolRun, fetch: string -> Result<Payload, string>)
    requires TranscriptOutcome(url, run, fetch).Success?
    ensures ValidateURL(url).None? && run.succeeded
    ensures var t := TranscriptOutcome(url, run, fetch).value;
      t.language == "en" && t.text != "" && Trimmed(t.text)
    ensures var track := FindBestSubtitleURL(VideoData(run.stdout).value);
      && track.0 != ""
      && fetch(track.0).Success?
      && SubtitleText(track.1, fetch(track.0).value).Some?
      && TranscriptOutcome(url, run, fetch).value.text == CleanTranscript(SubtitleText(track.1, fetch(track.0).value).value)
  {
  }

  /** The format dispatch of `GetTranscript`. */
  method DecodeSubtitle(format: string, data: Payload) returns (parsed: Result<string, string>)
    ensures parsed.Success? <==> SubtitleText(format, data).Some?
    ensures parsed.Success? ==> parsed.value == SubtitleText(format, data).value
  {
    match DecoderFor(format)
    case Json3Decoder =>
      parsed := ParseJSON3(data.json);
    case VttDecoder =>
      parsed := ParseVTT(data.text);
    case Json3ThenVtt =>
      parsed := DecodeWithFallback(data);
  }

  /** The server formats: read as JSON3, and as WebVTT when that fails. */
  method DecodeWithFallback(data: Payload) returns (parsed: Result<string, string>)
    ensures parsed.Success?
    ensures parsed.value == if Json3Transcript(data.json).Some? then Json3Transcript(data.json).value else VttTranscript(data.text)
  {
    parsed := ParseJSON3(data.json);
    if parsed.Failure? {
      parsed := ParseVTT(data.text);
    }
  }

  /**
   * `GetTranscript`: validate, run yt-dlp, pick a track, download it, decode
   * it by its format and clean the text; an empty result is reported as no
   * transcript.
   */
  method GetTranscript(url: string, run: ToolRun, fetch: string -> Result<Payload, string>)
    returns (r: Result<Transcript, VideoError>)
    ensures r == TranscriptOutcome(url, run, fetch)
    ensures ValidateURL(url).Some? ==> r == Failure(InvalidURL)
    ensures ValidateURL(url).None? && !run.succeeded ==> r == Failure(ClassifyToolFailure(run.stderr))
    ensures r.Success? ==> r.value.language == "en" && r.value.text != "" && Trimmed(r.value.text)
  {
    if ValidateURL(url).Some? {
      return Failure(InvalidURL);
    }
    if !run.succeeded {
      return Failure(ClassifyToolFailure(run.stderr));
    }
    var videoData := VideoData(run.stdout);
    if videoData.None? {
      return Failure(VideoDataUnreadable);
    }
    var track := FindBestSubtitleURL(videoData.value);
    var subtitleUrl, subtitleFormat := track.0, track.1;
    if subtitleUrl == "" {
      return Failure(NoTranscript);
    }
    var download := fetch(subtitleUrl);
    if download.Failure? {
      return Failure(DownloadFailed(download.error));
    }
    var parsed := DecodeSubtitle(subtitleFormat, download.value);
    if parsed.Failure? {
      return Failure(SubtitleUnparsable("failed to parse subtitle"));
    }
    var text := CleanTranscript(parsed.value);
    if text == "" {
      return Failure(NoTranscript);
    }
    return Success(Transcript(text, "en"));
  }

  // ---------------------------------------------------------------------------
  // Metadata and the combined lookup
  // ---------------------------------------------------------------------------

  /** The metadata fields the video data yields, each defaulting when it is missing or of another type. */
  function MetadataOf(fields: map<string, Json>): Metadata {
    var j := JObject(fields);
    Metadata(
      match StringField(j, "title") case Some(t) => t case None => "",
      match Field(j, "duration") case JNumber(n) => n case _ => 0,
      match StringField(j, "channel")
      case Some(c) => c
      case None => match StringField(j, "uploader") case Some(u) => u case None => "")
  }

  /** Video data without any of the fields gives the defaults: no title, zero duration, no channel. */
  lemma MetadataDefaults(fields: map<string, Json>)
    requires "title" !in fields && "duration" !in fields && "channel" !in fields && "uploader" !in fields
    ensures MetadataOf(fields) == Metadata("", 0, "")
  {
  }

  /** The channel is the `channel` string when there is one, and the `uploader` string only otherwise. */
  lemma MetadataChannel(fields: map<string, Json>)
    ensures Field(JObject(fields), "channel").JString? ==> MetadataOf(fields).channel == fields["channel"].s
    ensures !Field(JObject(fields), "channel").JString? && Field(JObject(fields), "uploader").JString?
      ==> MetadataOf(fields).channel == fields["uploader"].s
  {
  }

  /**
   * `GetVideoMetadata`: validate, run yt-dlp, then fill the metadata field by
   * field from the video data, leaving the default where a field is missing
   * or of another type.
   */
  method GetVideoMetadata(url: string, run: ToolRun) returns (r: Result<Metadata, VideoError>)
    ensures ValidateURL(url).Some? ==> r == Failure(InvalidURL)
    ensures ValidateURL(url).None? && !run.succeeded ==> r == Failure(ClassifyToolFailure(run.stderr))
    ensures ValidateURL(url).None? && run.succeeded && VideoData(run.stdout).None? ==> r == Failure(MetadataUnreadable)
    ensures r.Success? <==> ValidateURL(url).None? && run.succeeded && VideoData(run.stdout).Some?
    ensures r.Success? ==> r.value == MetadataOf(VideoData(run.stdout).value)
  {
    if ValidateURL(url).Some? {
      return Failure(InvalidURL);
    }
    if !run.succeeded {
      return Failure(ClassifyToolFailure(run.stderr));
    }
    var result := VideoData(run.stdout);
    if result.None? {
      return Failure(MetadataUnreadable);
    }
    var j := JObject(result.value);
    var metadata := Metadata("", 0, "");
    var title := StringField(j, "title");
    if title.Some? {
      metadata := metadata.(title := title.value);
    }
    var duration := Field(j, "duration");
    if duration.JNumber? {
      metadata := metadata.(duration := duration.n);
    }
    var channel := StringField(j, "channel");
    if channel.Some? {
      metadata := metadata.(channel := channel.value);
    } else {
      var uploader := StringField(j, "uploader");
      if uploader.Some? {
        metadata := metadata.(channel := uploader.value);
      }
    }
    return Success(metadata);
  }

  /**
   * `GetVideoInfo`: the metadata first, whose failure is the only failure
   * without a result; a transcript failure still returns the metadata,
   * without a transcript, together with the error.
   */
  method GetVideoInfo(url: string, metadataRun: ToolRun, transcriptRun: ToolRun, fetch: string -> Result<Payload, string>)
    returns (info: Option<VideoInfo>, err: Option<VideoError>)
    ensures info.None? <==> err.Some? && !err.value.TranscriptFailed?
    ensures info.Some? && info.value.transcript.None? <==> err.Some? && err.value.TranscriptFailed?
    ensures info.Some? && info.value.transcript.Some? <==> err.None?
    ensures info.None? <==> ValidateURL(url).Some? || !metadataRun.succeeded || VideoData(metadataRun.stdout).None?
    ensures info.Some? ==> info.value.metadata == MetadataOf(VideoData(metadataRun.stdout).value)
    ensures info.Some? && info.value.transcript.Some?
      ==> Success(info.value.transcript.value) == TranscriptOutcome(url, transcriptRun, fetch)
    ensures err.Some? && err.value.TranscriptFailed?
      ==> Failure(err.value.cause) == TranscriptOutcome(url, transcriptRun, fetch)
  {
    var metadata := GetVideoMetadata(url, metadataRun);
    if metadata.Failure? {
      return None, Some(metadata.error);
    }
    var transcript := GetTranscript(url, transcriptRun, fetch);
    if transcript.Failure? {
      return Some(VideoInfo(None, metadata.value)), Some(TranscriptFailed(transcript.error));
    }
    return Some(VideoInfo(Some(transcript.value), metadata.value)), None;
  }
}
