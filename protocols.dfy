/**
 * The six per-order validation protocols, as the effect each has on an
 * order: the verdict it writes into `validate_url` (or the exception it
 * raises), the replacement it writes into `order_edit_link`, and the actor
 * calls it makes.  `k` is the number of actor calls made before the
 * protocol starts, so the protocol's `n`-th call is answered by
 * `oracle(k + n, request)`.
 */
module Protocols {
  import opened Text
  import opened Values
  import opened Apify
  import opened Orders
  import I = Instagram
  import Y = Youtube

  /** `validate_url` set to 1, set to 0, or an exception escaping the protocol. */
  datatype Outcome = Accepted | Rejected | Raised

  /** `edit` is `None` where the protocol leaves `order_edit_link` alone. */
  datatype Effect = Effect(outcome: Outcome, edit: Option<Value>, probes: seq<Request>)

  /** A validator call's result together with the actor calls it made. */
  datatype Call<T> = Call(result: T, probes: seq<Request>)

  /** How Python stores an optional string: `None` or the string. */
  function ValueOf(o: Option<string>): (v: Value)
    ensures o.None? <==> v == Null
    ensures o.Some? ==> v == Str(o.value)
  {
    match o
    case None => Null
    case Some(s) => Str(s)
  }

  /** The order after a protocol with effect `e` ran on it. */
  function Apply(s: OrderState, e: Effect): (r: OrderState)
    ensures r.(editLink := s.editLink, validateUrl := s.validateUrl) == s
    ensures e.outcome == Accepted ==> r.validateUrl == 1
    ensures e.outcome == Rejected ==> r.validateUrl == 0
    ensures e.outcome == Raised ==> r.validateUrl == s.validateUrl
    ensures e.edit.None? ==> r.editLink == s.editLink
    ensures e.edit.Some? ==> r.editLink == e.edit.value
  {
    s.(editLink := if e.edit.Some? then e.edit.value else s.editLink,
       validateUrl := match e.outcome
                      case Accepted => 1
                      case Rejected => 0
                      case Raised => s.validateUrl)
  }

  // ---------------------------------------------------------------- Instagram

  /**
   * `validate_profile(input)`: extracts the username again and, unless that
   * gives nothing, asks the profile actor for it.
   */
  function ProfileCall(input: Option<string>, oracle: Oracle, k: nat): (c: Call<I.ProfileCall>)
    ensures var u := I.ExtractUsernameOpt(input);
      c.result.BareFalse? <==> u.None? || u.value == ""
    ensures c.result.BareFalse? ==> c.probes == []
    ensures c.result.Checked? ==>
      c.probes == [InstagramProfile(I.ExtractUsernameOpt(input).value)]
      && c.result.result == I.ProfileVerdict(oracle(k, c.probes[0]))
  {
    var u := I.ExtractUsernameOpt(input);
    if u.None? || u.value == "" then Call(I.BareFalse, [])
    else
      var req := InstagramProfile(u.value);
      Call(I.Checked(I.ProfileVerdict(oracle(k, req))), [req])
  }

  /**
   * `validate_instagram_profile` (follower orders).  A profile-card link and
   * a tagged `@name` have their edit link rewritten first; a post link is
   * refused outright; otherwise the username is checked with the profile
   * actor and accepted when the profile exists and is not private.
   */
  function InstagramProfileEffect(link: string, oracle: Oracle, k: nat): (r: Effect)
    ensures |r.probes| <= 1
    ensures r.probes != [] ==> r.probes[0].InstagramProfile?
    ensures r.outcome == Accepted ==>
      && !I.IsPostLink(link) && |r.probes| == 1
      && var res := I.ProfileVerdict(oracle(k, r.probes[0]));
         res.found && "private" in res.items[0] && !Truthy(res.items[0]["private"])
    ensures I.IsPostLink(link) ==> r.probes == [] && r.outcome != Accepted
    // The edit link: the tag rewrite where it applies, else the card rewrite.
    ensures var u := I.ExtractUsername(link);
      I.IsTagUsername(link) && u.Some? ==> r.edit == Some(Str(RemoveChar(u.value, '@')))
    ensures var u := I.ExtractUsername(link);
      !I.IsTagUsername(link) || u.None? ==>
        r.edit == (if I.IsProfileCardLink(link) then Some(ValueOf(u)) else None)
    // The outcome, case by case, in the order the protocol tests.
    ensures var u := I.ExtractUsername(link);
      I.IsTagUsername(link) && u.None? ==> r.outcome == Raised && r.probes == []
    ensures var u := I.ExtractUsername(link);
      !(I.IsTagUsername(link) && u.None?) && I.IsPostLink(link) ==> r.outcome == Rejected
    ensures var u := I.ExtractUsername(link);
      !(I.IsTagUsername(link) && u.None?) && !I.IsPostLink(link) && (u.None? || u.value == "") ==>
        r.outcome == Rejected && r.probes == []
    ensures var u := I.ExtractUsername(link);
      !I.IsPostLink(link) && u.Some? && u.value != "" ==>
        var c := ProfileCall(u, oracle, k);
        && r.probes == c.probes
        && (c.result.BareFalse? ==> r.outcome == Raised)
        && (c.result.Checked? ==>
              var res := c.result.result;
              && (r.outcome == Accepted <==>
                    res.found && "private" in res.items[0] && !Truthy(res.items[0]["private"]))
              && (r.outcome == Raised <==> res.found && "private" !in res.items[0]))
  {
    var cardEdit := if I.IsProfileCardLink(link) then Some(ValueOf(I.ExtractUsername(link))) else None;
    if I.IsTagUsername(link) && I.ExtractUsername(link).None? then
      Effect(Raised, cardEdit, [])  // `None.replace('@', '')`
    else
      var edit := if I.IsTagUsername(link) then Some(Str(RemoveChar(I.ExtractUsername(link).value, '@')))
                  else cardEdit;
      if I.IsPostLink(link) then Effect(Rejected, edit, [])
      else
        var u := I.ExtractUsername(link);
        if u.None? || u.value == "" then Effect(Rejected, edit, [])
        else
          var c := ProfileCall(u, oracle, k);
          match c.result
          case BareFalse => Effect(Raised, edit, c.probes)  // `False[0]`
          case Checked(res) =>
            if !res.found then Effect(Rejected, edit, c.probes)
            else if "private" !in res.items[0] then Effect(Raised, edit, c.probes)
            else if Truthy(res.items[0]["private"]) then Effect(Rejected, edit, c.probes)
            else Effect(Accepted, edit, c.probes)
  }

  /**
   * The profile candidate of a reels or post order that is not a post link:
   * a profile-card link is reduced to its username first.
   */
  function ProfileInput(link: string): (r: Option<string>)
    ensures !I.IsProfileCardLink(link) ==> r == Some(link)
  {
    if I.IsProfileCardLink(link) then I.ExtractUsername(link) else Some(link)
  }

  /**
   * `validate_instagram_reels` (reels view orders).  A post link is checked
   * with the post actor and accepted when the post exists and is a video;
   * anything else is taken as a profile, whose newest video post becomes the
   * edit link.  Where the profile has no video post `max` raises, so the
   * "no reels" branch after it is never reached.
   */
  function InstagramReelsEffect(link: string, oracle: Oracle, k: nat): (r: Effect)
    ensures |r.probes| <= 1
    ensures I.IsPostLink(link) ==> r.probes == [InstagramPost(link)] && r.edit.None?
    ensures !I.IsPostLink(link) && r.probes != [] ==> r.probes[0].InstagramProfile?
    ensures r.outcome == Accepted && I.IsPostLink(link) ==>
      var res := I.PostVerdict(oracle(k, InstagramPost(link)));
      res.Some? && res.value.found && Get(res.value.items[0], "type") == Str("Video")
    ensures r.outcome == Accepted && !I.IsPostLink(link) ==>
      |r.probes| == 1 && var res := I.ProfileVerdict(oracle(k, r.probes[0]));
      res.found && "latestPosts" in res.items[0]
      && r.edit == I.LatestPostUrl(res.items[0]["latestPosts"], true)
    ensures I.IsPostLink(link) ==>
      var pv := I.PostVerdict(oracle(k, InstagramPost(link)));
      && (r.outcome == Raised <==> pv.None?)
      && (r.outcome == Accepted <==>
            pv.Some? && pv.value.found && Get(pv.value.items[0], "type") == Str("Video"))
    ensures !I.IsPostLink(link) ==>
      var c := ProfileCall(ProfileInput(link), oracle, k);
      && r.probes == c.probes
      && (c.result.BareFalse? ==> r.outcome == Raised && r.edit.None?)
      && (c.result.Checked? && !c.result.result.found ==> r.outcome == Rejected && r.edit.None?)
      && (c.result.Checked? && c.result.result.found ==>
            var item := c.result.result.items[0];
            var newest := if "latestPosts" in item then I.LatestPostUrl(item["latestPosts"], true) else None;
            && (newest.None? ==> r.outcome == Raised && r.edit.None?)
            && (newest.Some? ==> r.outcome == Accepted && r.edit == newest))
  {
    if I.IsPostLink(link) then
      var req := InstagramPost(link);
      match I.PostVerdict(oracle(k, req))
      case None => Effect(Raised, None, [req])
      case Some(res) =>
        if res.found && Get(res.items[0], "type") == Str("Video") then Effect(Accepted, None, [req])
        else Effect(Rejected, None, [req])
    else
      var c := ProfileCall(ProfileInput(link), oracle, k);
      match c.result
      case BareFalse => Effect(Raised, None, c.probes)  // `False[0]`
      case Checked(res) =>
        if !res.found then Effect(Rejected, None, c.probes)
        else if "latestPosts" !in res.items[0] then Effect(Raised, None, c.probes)
        else match I.LatestPostUrl(res.items[0]["latestPosts"], true)
          case None => Effect(Raised, None, c.probes)
          case Some(url) => Effect(Accepted, Some(url), c.probes)
  }

  /**
   * `validate_instagram_post` (post likes and similar).  A post link is
   * accepted when the post actor finds it; anything else is taken as a
   * profile, whose newest post becomes the edit link.
   */
  function InstagramPostEffect(link: string, oracle: Oracle, k: nat): (r: Effect)
    ensures |r.probes| <= 1
    ensures I.IsPostLink(link) ==> r.probes == [InstagramPost(link)] && r.edit.None?
    ensures !I.IsPostLink(link) && r.probes != [] ==> r.probes[0].InstagramProfile?
    ensures I.IsPostLink(link) ==>
      (r.outcome == Raised <==> oracle(k, InstagramPost(link)).Failure?)
      && (r.outcome == Accepted <==> var pv := I.PostVerdict(oracle(k, InstagramPost(link))); pv.Some? && pv.value.found)
    ensures r.outcome == Accepted && !I.IsPostLink(link) ==>
      |r.probes| == 1 && var res := I.ProfileVerdict(oracle(k, r.probes[0]));
      res.found && "latestPosts" in res.items[0]
      && r.edit == I.LatestPostUrl(res.items[0]["latestPosts"], false)
    ensures !I.IsPostLink(link) ==>
      var c := ProfileCall(ProfileInput(link), oracle, k);
      && r.probes == c.probes
      && (c.result.BareFalse? ==> r.outcome == Raised && r.edit.None?)
      && (c.result.Checked? && !c.result.result.found ==> r.outcome == Rejected && r.edit.None?)
      && (c.result.Checked? && c.result.result.found ==>
            var item := c.result.result.items[0];
            var newest := if "latestPosts" in item then I.LatestPostUrl(item["latestPosts"], false) else None;
            && (newest.None? ==> r.outcome == Raised && r.edit.None?)
            && (newest.Some? ==> r.outcome == Accepted && r.edit == newest))
  {
    if I.IsPostLink(link) then
      var req := InstagramPost(link);
      match I.PostVerdict(oracle(k, req))
      case None => Effect(Raised, None, [req])  // the handler's unbound `items`
      case Some(res) => Effect(if res.found then Accepted else Rejected, None, [req])
    else
      var c := ProfileCall(ProfileInput(link), oracle, k);
      match c.result
      case BareFalse => Effect(Raised, None, c.probes)
      case Checked(res) =>
        if !res.found then Effect(Rejected, None, c.probes)
        else if "latestPosts" !in res.items[0] then Effect(Raised, None, c.probes)
        else match I.LatestPostUrl(res.items[0]["latestPosts"], false)
          case None => Effect(Raised, None, c.probes)
          case Some(url) => Effect(Accepted, Some(url), c.probes)
  }

  /**
   * A tagged handle such as `@jane.doe` is stored without the `@` as the
   * edit link, but the profile actor is still asked for `@jane.doe`.
   */
  lemma TagHandleProbedWithAt(link: string, oracle: Oracle, k: nat)
    requires I.IsTagUsername(link) && !Contains(link, I.Domain)
    requires !I.IsPostLink(link) && !I.IsProfileCardLink(link)
    ensures var r := InstagramProfileEffect(link, oracle, k);
      r.edit == Some(Str(RemoveChar(link, '@'))) && r.probes == [InstagramProfile(link)]
  {
  }

  /** A profile-card link and a tag: a username that cannot be extracted raises. */
  lemma UnextractableTagRaises(link: string, oracle: Oracle, k: nat)
    requires I.IsTagUsername(link) && I.ExtractUsername(link).None?
    ensures var r := InstagramProfileEffect(link, oracle, k);
      r.outcome == Raised && r.probes == []
      && r.edit == (if I.IsProfileCardLink(link) then Some(Null) else None)
  {
  }

  // ---------------------------------------------------------------- YouTube

  /**
   * `validate_channel(v)`: asks the channel actor for `v` unless
   * `_extract_channel_id(v)` gives nothing (or raises).
   */
  function ChannelCall(v: Value, oracle: Oracle, k: nat): (c: Call<ProbeResult>)
    ensures c.probes == [] <==> !Y.ChannelIdTruthy(v)
    ensures c.probes == [] ==> c.result == ProbeResult(false, [])
    ensures c.probes != [] ==> c.probes == [YoutubeChannel(v)] && c.result == Y.Verdict(oracle(k, YoutubeChannel(v)))
  {
    if !Y.ChannelIdTruthy(v) then Call(ProbeResult(false, []), [])
    else Call(Y.Verdict(oracle(k, YoutubeChannel(v))), [YoutubeChannel(v)])
  }

  /** `validate_video(url)`: always asks the video actor. */
  function VideoCall(url: string, oracle: Oracle, k: nat): (c: Call<ProbeResult>)
    ensures c.probes == [YoutubeVideo(url)] && c.result == Y.Verdict(oracle(k, YoutubeVideo(url)))
  {
    Call(Y.Verdict(oracle(k, YoutubeVideo(url))), [YoutubeVideo(url)])
  }

  /**
   * `validate_youtube_channel` (subscriber orders).  A channel link is
   * checked as it is.  A video link is first resolved to its channel with
   * the channel actor, and the `channelUrl` it reports becomes the edit link
   * and is checked in turn.
   */
  function YoutubeChannelEffect(link: string, oracle: Oracle, k: nat): (r: Effect)
    ensures r.outcome != Raised
    ensures |r.probes| <= 2
    ensures forall n :: 0 <= n < |r.probes| ==> r.probes[n].YoutubeChannel?
    ensures !Y.IsChannelLink(link) && !Y.IsVideoLink(link) ==> r == Effect(Rejected, None, [])
    ensures Y.IsChannelLink(link) ==> r.edit.None?
    ensures r.outcome == Accepted ==>
      r.probes != [] && Y.Verdict(oracle(k + |r.probes| - 1, r.probes[|r.probes| - 1])).found
    ensures Y.IsChannelLink(link) ==>
      var c := ChannelCall(Str(link), oracle, k);
      r.probes == c.probes && (r.outcome == Accepted <==> c.result.found)
    ensures !Y.IsChannelLink(link) && Y.IsVideoLink(link) ==>
      var first := ChannelCall(Str(link), oracle, k);
      && (!first.result.found ==> r == Effect(Rejected, None, first.probes))
      && (first.result.found ==>
            var channelUrl := Get(first.result.items[0], "channelUrl");
            var second := ChannelCall(channelUrl, oracle, k + 1);
            && first.probes == [YoutubeChannel(Str(link))]
            && r.edit == Some(channelUrl)
            && r.probes == first.probes + second.probes
            && (r.outcome == Accepted <==> second.result.found))
  {
    if !Y.IsChannelLink(link) && !Y.IsVideoLink(link) then Effect(Rejected, None, [])
    else if !Y.IsChannelLink(link) then
      var first := ChannelCall(Str(link), oracle, k);
      if !first.result.found then Effect(Rejected, None, first.probes)
      else
        var channelUrl := Get(first.result.items[0], "channelUrl");
        var second := ChannelCall(channelUrl, oracle, k + |first.probes|);
        Effect(if second.result.found then Accepted else Rejected, Some(channelUrl), first.probes + second.probes)
    else
      var c := ChannelCall(Str(link), oracle, k);
      Effect(if c.result.found then Accepted else Rejected, None, c.probes)
  }

  /**
   * A `youtube.com/watch?v=` link on a subscriber order is refused without
   * any actor call: it holds `youtube.com` but no channel pattern, so no
   * channel id is extracted and the resolution step never runs.
   */
  lemma WatchLinkNotResolved(link: string, oracle: Oracle, k: nat)
    requires Contains(link, "youtube.com") && !Y.IsChannelLink(link)
    ensures YoutubeChannelEffect(link, oracle, k) == Effect(Rejected, None, [])
  {
    assert Y.ExtractChannelId(link).None?;
  }

  /** A short `youtu.be/` link is sent to the channel actor as it is, to find its channel. */
  lemma ShortLinkResolved(link: string, oracle: Oracle, k: nat)
    requires Y.IsVideoLink(link) && !Contains(link, "youtube.com")
    ensures YoutubeChannelEffect(link, oracle, k).probes[0] == YoutubeChannel(Str(link))
  {
    if Y.IsChannelLink(link) {
      Y.ChannelLinkHasDomain(link);
    }
    assert Y.ExtractChannelId(link) == Some(link);
  }

  /**
   * `validate_youtube_video` (views, likes).  The raw link must have a
   * YouTube scheme and host; a video link is checked with the video actor.
   * A channel link that is not a video link reaches the un-awaited
   * `validate_video(url)`, whose coroutine cannot be indexed, so the
   * protocol raises before any actor call.
   */
  function YoutubeVideoEffect(link: string, oracle: Oracle, k: nat): (r: Effect)
    ensures r.edit.None?
    ensures r.outcome == Raised <==> Y.IsValidBaseUrl(link) && !Y.IsVideoLink(link) && Y.IsChannelLink(link)
    ensures r.probes != [] <==> Y.IsValidBaseUrl(link) && Y.IsVideoLink(link)
    ensures r.probes != [] ==> r.probes == [YoutubeVideo(link)]
    ensures r.outcome == Accepted <==> r.probes != [] && Y.Verdict(oracle(k, YoutubeVideo(link))).found
  {
    if !Y.IsValidBaseUrl(link) then Effect(Rejected, None, [])
    else if !Y.IsVideoLink(link) then
      if !Y.IsChannelLink(link) then Effect(Rejected, None, [])
      else Effect(Raised, None, [])
    else
      var c := VideoCall(link, oracle, k);
      Effect(if c.result.found then Accepted else Rejected, None, c.probes)
  }

  /**
   * `validate_youtube_comment` (comment likes).  Only a video link that is
   * also a comment link (`&lc=`) is checked with the video actor.
   */
  function YoutubeCommentEffect(link: string, oracle: Oracle, k: nat): (r: Effect)
    ensures r.edit.None? && r.outcome != Raised
    ensures r.probes != [] <==> Y.IsCommentLink(link)
    ensures r.probes != [] ==> r.probes == [YoutubeVideo(link)]
    ensures r.outcome == Accepted <==> Y.IsCommentLink(link) && Y.Verdict(oracle(k, YoutubeVideo(link))).found
  {
    if !Y.IsVideoLink(link) || !Y.IsCommentLink(link) then
      assert Y.IsCommentLink(link) ==> Y.IsVideoLink(link) by {
        if Y.IsCommentLink(link) { Y.CommentLinkIsVideoLink(link); }
      }
      Effect(Rejected, None, [])
    else
      var c := VideoCall(link, oracle, k);
      Effect(if c.result.found then Accepted else Rejected, None, c.probes)
  }
}
