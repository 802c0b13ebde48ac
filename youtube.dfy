/**
 * `YoutubeValidator`: the link grammar (video, channel and comment patterns,
 * the base-URL check, `validate_url`, the id extractors) and the reading of
 * the channel and video actors' datasets.
 *
 * A regular expression `prefix[\w-]+` is searched as "the literal prefix
 * occurs, followed by at least one word-or-hyphen character"; a capture
 * group `prefix([\w-]+)` is the longest such run at the leftmost match.
 */
module Youtube {
  import opened Text
  import opened Values
  import opened Apify

  /** Regex `\w` on ASCII text: letters, digits and underscore. */
  predicate IsWordChar(c: char) {
    ('a' <= c <= 'z') || ('A' <= c <= 'Z') || ('0' <= c <= '9') || c == '_'
  }

  /** Regex class `[\w-]`. */
  predicate IsIdChar(c: char) {
    IsWordChar(c) || c == '-'
  }

  /** `prefix[\w-]+` matches `s` starting at `i`. */
  predicate PatternAt(s: string, prefix: string, i: nat) {
    OccursAt(s, prefix, i) && i + |prefix| < |s| && IsIdChar(s[i + |prefix|])
  }

  /** Leftmost start (at or after `i`) where `prefix[\w-]+` matches, as `re.search` finds it. */
  function SearchFrom(s: string, prefix: string, i: nat): (r: Option<nat>)
    ensures r.Some? ==> i <= r.value && PatternAt(s, prefix, r.value)
    ensures r.Some? ==> forall j: nat :: i <= j < r.value ==> !PatternAt(s, prefix, j)
    ensures r.None? ==> forall j: nat :: i <= j ==> !PatternAt(s, prefix, j)
    decreases |s| - i
  {
    if i + |prefix| >= |s| then None
    else if PatternAt(s, prefix, i) then Some(i)
    else SearchFrom(s, prefix, i + 1)
  }

  /** `re.search(prefix + r'[\w-]+', s)` succeeds. */
  predicate Matches(s: string, prefix: string) {
    SearchFrom(s, prefix, 0).Some?
  }

  /** `any(re.search(p, s) for p in patterns)`. */
  predicate MatchesAny(s: string, prefixes: seq<string>) {
    exists k :: 0 <= k < |prefixes| && Matches(s, prefixes[k])
  }

  /** The longest run of `[\w-]` characters at the start of `s`. */
  function IdRun(s: string): (r: string)
    ensures |r| <= |s| && r == s[..|r|]
    ensures forall j :: 0 <= j < |r| ==> IsIdChar(r[j])
    ensures |r| < |s| ==> !IsIdChar(s[|r|])
  {
    if |s| > 0 && IsIdChar(s[0]) then [s[0]] + IdRun(s[1..]) else ""
  }

  const VideoPrefixes: seq<string> :=
    ["youtube.com/watch?v=", "youtu.be/", "youtube.com/embed/", "youtube.com/v/"]

  const ChannelPrefixes: seq<string> :=
    ["youtube.com/channel/", "youtube.com/c/", "youtube.com/@"]

  const WatchPrefix: string := "youtube.com/watch?v="
  const CommentMarker: string := "&lc="

  /** `_is_video_link`. */
  predicate IsVideoLink(url: string) {
    MatchesAny(url, VideoPrefixes)
  }

  /** `_is_channel_link`. */
  predicate IsChannelLink(url: string) {
    MatchesAny(url, ChannelPrefixes)
  }

  /** No newline in `s[a..b]`: the span regex `.*` can cover. */
  predicate NoNewline(s: string, a: nat, b: nat)
    requires a <= b <= |s|
  {
    forall j :: a <= j < b ==> s[j] != '\n'
  }

  /**
   * `youtube\.com/watch\?v=[\w-]+.*&lc=[\w-]+` matches at `i` with `&lc=`
   * at `j`: one id character after `v=`, then anything but a newline.
   */
  predicate CommentAt(s: string, i: nat, j: nat) {
    PatternAt(s, WatchPrefix, i) && i + |WatchPrefix| + 1 <= j
    && PatternAt(s, CommentMarker, j) && NoNewline(s, i + |WatchPrefix| + 1, j)
  }

  /** `youtube\.com/watch\?v=[\w-]+&lc=[\w-]+` matches at `i` with `&lc=` at `j`. */
  predicate PlainCommentAt(s: string, i: nat, j: nat) {
    PatternAt(s, WatchPrefix, i) && i + |WatchPrefix| + 1 <= j
    && PatternAt(s, CommentMarker, j) && forall k :: i + |WatchPrefix| <= k < j ==> IsIdChar(s[k])
  }

  /**
   * `_is_comment_link`: `any` over the two comment patterns.  The first
   * pattern is a special case of the second (see `PlainCommentIsComment`), so
   * the second decides.
   */
  predicate IsCommentLink(url: string) {
    (exists i, j :: 0 <= i < j < |url| && PlainCommentAt(url, i, j))
    || (exists i, j :: 0 <= i < j < |url| && CommentAt(url, i, j))
  }

  lemma PlainCommentIsComment(s: string, i: nat, j: nat)
    requires PlainCommentAt(s, i, j)
    ensures CommentAt(s, i, j)
  {
  }

  /** A comment link is always a video link. */
  lemma CommentLinkIsVideoLink(url: string)
    requires IsCommentLink(url)
    ensures IsVideoLink(url)
  {
    var i: nat;
    if exists i, j :: 0 <= i < j < |url| && PlainCommentAt(url, i, j) {
      var i', j :| 0 <= i' < j < |url| && PlainCommentAt(url, i', j);
      i := i';
    } else {
      var i', j :| 0 <= i' < j < |url| && CommentAt(url, i', j);
      i := i';
    }
    assert PatternAt(url, VideoPrefixes[0], i);
    assert Matches(url, VideoPrefixes[0]);
  }

  /** `_is_valid_base_url`. */
  predicate IsValidBaseUrl(url: string) {
    (Contains(url, "youtube.com") || Contains(url, "youtu.be"))
    && (StartsWith(url, "http://") || StartsWith(url, "https://"))
  }

  const MsgEmpty: string := "URL이 비어있습니다."
  const MsgBadBase: string := "유효하지 않은 YouTube URL 형식입니다."
  const MsgUnsupported: string := "지원되지 않는 YouTube URL 형식입니다."

  /** The `(ok, detail)` pair `validate_url` returns. */
  datatype UrlCheck = UrlCheck(ok: bool, detail: string)

  /** `validate_url`: trims and lower-cases, then classifies video before channel. */
  function ValidateUrl(url: string): (r: UrlCheck)
    ensures url == "" ==> r == UrlCheck(false, MsgEmpty)
    ensures url != "" && !IsValidBaseUrl(Lower(Strip(url))) ==> r == UrlCheck(false, MsgBadBase)
    ensures r.ok <==> url != "" && IsValidBaseUrl(Lower(Strip(url)))
                      && (IsVideoLink(Lower(Strip(url))) || IsChannelLink(Lower(Strip(url))))
    ensures r.ok ==> (r.detail == "video" <==> IsVideoLink(Lower(Strip(url))))
    ensures r.ok ==> r.detail in {"video", "channel"}
  {
    if url == "" then UrlCheck(false, MsgEmpty)
    else
      var u := Lower(Strip(url));
      if !IsValidBaseUrl(u) then UrlCheck(false, MsgBadBase)
      else if IsVideoLink(u) then UrlCheck(true, "video")
      else if IsChannelLink(u) then UrlCheck(true, "channel")
      else UrlCheck(false, MsgUnsupported)
  }

  /** Without an `http://` or `https://` scheme (after trimming and lower-casing) nothing is valid. */
  lemma NoSchemeIsInvalid(url: string)
    requires !StartsWith(Lower(Strip(url)), "http://") && !StartsWith(Lower(Strip(url)), "https://")
    ensures !ValidateUrl(url).ok
  {
  }

  /** The capture of the first pattern (in list order) that matches, at its leftmost match. */
  function FirstGroup(url: string, prefixes: seq<string>): (r: Option<string>)
    ensures r.Some? <==> MatchesAny(url, prefixes)
    ensures r.Some? ==> |r.value| > 0
  {
    if |prefixes| == 0 then None
    else match SearchFrom(url, prefixes[0], 0)
      case Some(i) => Some(IdRun(url[i + |prefixes[0]|..]))
      case None =>
        var rest := FirstGroup(url, prefixes[1..]);
        assert forall k :: 1 <= k < |prefixes| ==> prefixes[k] == prefixes[1..][k - 1];
        assert MatchesAny(url, prefixes[1..]) ==> MatchesAny(url, prefixes);
        rest
  }

  /** `_extract_channel_id` on a string. */
  function ExtractChannelId(url: string): (r: Option<string>)
    ensures url == "" ==> r.None?
    ensures url != "" && !Contains(url, "youtube.com") ==> r == Some(url)
    ensures Contains(url, "youtube.com") ==> (r.Some? <==> IsChannelLink(url))
    ensures r.Some? ==> |r.value| > 0
  {
    if url == "" then None
    else if !Contains(url, "youtube.com") then Some(url)
    else FirstGroup(url, ChannelPrefixes)
  }

  /** A channel pattern contains `youtube.com`, so a channel link holds the domain. */
  lemma ChannelLinkHasDomain(url: string)
    requires IsChannelLink(url)
    ensures Contains(url, "youtube.com")
  {
    var k :| 0 <= k < |ChannelPrefixes| && Matches(url, ChannelPrefixes[k]);
    var i := SearchFrom(url, ChannelPrefixes[k], 0).value;
    assert OccursAt(url[i..i + |ChannelPrefixes[k]|], "youtube.com", 0);
    OccursInPrefix(url[i..], "youtube.com", |ChannelPrefixes[k]|, 0);
    assert url[i..][..|ChannelPrefixes[k]|] == url[i..i + |ChannelPrefixes[k]|];
    OccursInSuffix(url, "youtube.com", i, 0);
    ContainsIff(url, "youtube.com");
  }

  /**
   * The channel id of a link holding a `/channel/` id: the maximal id run
   * right after the leftmost match.
   */
  lemma ChannelIdOfChannelPath(url: string)
    requires Matches(url, ChannelPrefixes[0])
    ensures var i := SearchFrom(url, ChannelPrefixes[0], 0).value;
      ExtractChannelId(url) == Some(IdRun(url[i + |ChannelPrefixes[0]|..]))
  {
    assert IsChannelLink(url);
    ChannelLinkHasDomain(url);
  }

  /** `_extract_video_id`. */
  function ExtractVideoId(url: string): (r: Option<string>)
    ensures r.Some? <==> Contains(url, "youtube.com/watch?v=") || Contains(url, "youtu.be/")
  {
    if Contains(url, "youtube.com/watch?v=") then
      WatchIdPieces(url);
      Some(Split(Split(url, "watch?v=")[1], "&")[0])
    else if Contains(url, "youtu.be/") then
      Some(Split(Split(url, "youtu.be/")[1], "?")[0])
    else None
  }

  /** `watch?v=` occurs wherever `youtube.com/watch?v=` does, so the split has a second piece. */
  lemma WatchIdPieces(url: string)
    requires Contains(url, "youtube.com/watch?v=")
    ensures |Split(url, "watch?v=")| >= 2
  {
    var i := Find(url, "youtube.com/watch?v=").value;
    assert url[i + 12..i + 20] == url[i..i + 20][12..];
    assert OccursAt(url, "watch?v=", i + 12);
    ContainsIff(url, "watch?v=");
  }

  /** A video id contains neither `&` (watch links) nor `?` (short links). */
  lemma VideoIdCut(url: string)
    requires ExtractVideoId(url).Some?
    ensures Contains(url, "youtube.com/watch?v=") ==> '&' !in ExtractVideoId(url).value
    ensures !Contains(url, "youtube.com/watch?v=") ==> '?' !in ExtractVideoId(url).value
  {
    if Contains(url, "youtube.com/watch?v=") {
      WatchIdPieces(url);
      SplitFirstCharFree(Split(url, "watch?v=")[1], '&');
    } else {
      SplitFirstCharFree(Split(url, "youtu.be/")[1], '?');
    }
  }

  /**
   * How `validate_channel` and `validate_video` read a dataset: not found on
   * a client exception, on an empty dataset (`items[0]` raises and is caught)
   * or when the first item carries a `note`; otherwise found unless the first
   * item's `error` is truthy.
   */
  function Verdict(resp: Response): (r: ProbeResult)
    ensures r.found <==> resp.Items? && |resp.items| > 0 && "note" !in resp.items[0]
                         && !Truthy(Get(resp.items[0], "error"))
    ensures r.found ==> r.items == resp.items
    ensures resp.Failure? || resp.items == [] ==> r == ProbeResult(false, [])
  {
    match resp
    case Failure => ProbeResult(false, [])
    case Items(xs) =>
      if |xs| == 0 then ProbeResult(false, [])
      else if "note" in xs[0] then ProbeResult(false, xs)
      else ProbeResult(!Truthy(Get(xs[0], "error")), xs)
  }

  /**
   * Whether `validate_channel(v)` gets past its channel-id check and calls
   * the actor: `_extract_channel_id(v)` must return something truthy.  A value
   * that is not a string gets through only when it is a non-empty list or dict
   * without `'youtube.com'` as element or key (`in` on it succeeds, and it is
   * returned unchanged); numbers make `in` raise, which the caller catches.
   */
  predicate ChannelIdTruthy(v: Value) {
    match v
    case Str(s) => ExtractChannelId(s).Some?
    case List(e) => |e| > 0 && Str("youtube.com") !in e
    case Dict(f) => |f| > 0 && "youtube.com" !in f
    case _ => false
  }
}
