/**
 * The validator calls and the per-order protocols as they run: each calls
 * the actor client and updates the order in place, and is proved to have
 * exactly the effect its function in `Protocols` describes.  A returned
 * `raised` stands for an exception escaping the protocol.
 */
module Validation {
  import opened Text
  import opened Values
  import opened Apify
  import opened Orders
  import opened Protocols
  import I = Instagram
  import Y = Youtube

  /** `InstagramValidator.validate_profile`. */
  method ValidateProfile(client: ActorClient, input: Option<string>) returns (c: I.ProfileCall)
    modifies client
    ensures var spec := ProfileCall(input, client.oracle, |old(client.log)|);
      c == spec.result && client.log == old(client.log) + spec.probes
  {
    var username := I.ExtractUsernameOpt(input);
    if username.None? || username.value == "" {
      return I.BareFalse;
    }
    var resp := client.Call(InstagramProfile(username.value));
    c := I.Checked(I.ProfileVerdict(resp));
  }

  /** `InstagramValidator.validate_post`; `None` when its exception escapes. */
  method ValidatePost(client: ActorClient, url: string) returns (r: Option<ProbeResult>)
    modifies client
    ensures r == I.PostVerdict(client.oracle(|old(client.log)|, InstagramPost(url)))
    ensures client.log == old(client.log) + [InstagramPost(url)]
  {
    var resp := client.Call(InstagramPost(url));
    r := I.PostVerdict(resp);
  }

  /** `YoutubeValidator.validate_channel`. */
  method ValidateChannel(client: ActorClient, channelUrl: Value) returns (r: ProbeResult)
    modifies client
    ensures var spec := ChannelCall(channelUrl, client.oracle, |old(client.log)|);
      r == spec.result && client.log == old(client.log) + spec.probes
  {
    if !Y.ChannelIdTruthy(channelUrl) {
      return ProbeResult(false, []);
    }
    var resp := client.Call(YoutubeChannel(channelUrl));
    r := Y.Verdict(resp);
  }

  /** `YoutubeValidator.validate_video`. */
  method ValidateVideo(client: ActorClient, videoUrl: string) returns (r: ProbeResult)
    modifies client
    ensures var spec := VideoCall(videoUrl, client.oracle, |old(client.log)|);
      r == spec.result && client.log == old(client.log) + spec.probes
  {
    var resp := client.Call(YoutubeVideo(videoUrl));
    r := Y.Verdict(resp);
  }

  /** `validate_instagram_profile`. */
  method ValidateInstagramProfile(order: Order, client: ActorClient) returns (raised: bool)
    modifies order, client
    ensures var e := InstagramProfileEffect(order.link, client.oracle, |old(client.log)|);
      && order.State() == Apply(old(order.State()), e)
      && client.log == old(client.log) + e.probes
      && raised == (e.outcome == Raised)
  {
    var url := order.link;
    if I.IsProfileCardLink(url) {
      order.editLink := ValueOf(I.ExtractUsername(url));
    }
    if I.IsTagUsername(url) {
      var editUrl := I.ExtractUsername(url);
      if editUrl.None? {
        return true;
      }
      order.editLink := Str(RemoveChar(editUrl.value, '@'));
    }
    if I.IsPostLink(url) {
      order.validateUrl := 0;
      return false;
    }
    var username := I.ExtractUsername(url);
    if username.None? || username.value == "" {
      order.validateUrl := 0;
      return false;
    }
    var valid := ValidateProfile(client, username);
    if valid.BareFalse? {
      return true;
    }
    if !valid.result.found {
      order.validateUrl := 0;
      return false;
    }
    if "private" !in valid.result.items[0] {
      return true;
    }
    if Truthy(valid.result.items[0]["private"]) {
      order.validateUrl := 0;
      return false;
    }
    order.validateUrl := 1;
    return false;
  }

  /** `validate_instagram_reels`. */
  method ValidateInstagramReels(order: Order, client: ActorClient) returns (raised: bool)
    modifies order, client
    ensures var e := InstagramReelsEffect(order.link, client.oracle, |old(client.log)|);
      && order.State() == Apply(old(order.State()), e)
      && client.log == old(client.log) + e.probes
      && raised == (e.outcome == Raised)
  {
    var url := order.link;
    if I.IsPostLink(url) {
      var post := ValidatePost(client, url);
      if post.None? {
        return true;
      }
      if post.value.found && Get(post.value.items[0], "type") == Str("Video") {
        order.validateUrl := 1;
      } else {
        order.validateUrl := 0;
      }
      return false;
    }
    var profile := ValidateProfile(client, ProfileInput(url));
    if profile.BareFalse? {
      return true;
    }
    if !profile.result.found {
      order.validateUrl := 0;
      return false;
    }
    if "latestPosts" !in profile.result.items[0] {
      return true;
    }
    var latest := I.LatestPostUrl(profile.result.items[0]["latestPosts"], true);
    if latest.None? {
      return true;
    }
    order.editLink := latest.value;
    order.validateUrl := 1;
    return false;
  }

  /** `validate_instagram_post`. */
  method ValidateInstagramPost(order: Order, client: ActorClient) returns (raised: bool)
    modifies order, client
    ensures var e := InstagramPostEffect(order.link, client.oracle, |old(client.log)|);
      && order.State() == Apply(old(order.State()), e)
      && client.log == old(client.log) + e.probes
      && raised == (e.outcome == Raised)
  {
    var url := order.link;
    if I.IsPostLink(url) {
      var post := ValidatePost(client, url);
      if post.None? {
        return true;
      }
      order.validateUrl := if post.value.found then 1 else 0;
      return false;
    }
    var profile := ValidateProfile(client, ProfileInput(url));
    if profile.BareFalse? {
      return true;
    }
    if !profile.result.found {
      order.validateUrl := 0;
      return false;
    }
    if "latestPosts" !in profile.result.items[0] {
      return true;
    }
    var latest := I.LatestPostUrl(profile.result.items[0]["latestPosts"], false);
    if latest.None? {
      return true;
    }
    order.editLink := latest.value;
    order.validateUrl := 1;
    return false;
  }

  /** `validate_youtube_channel`; it never raises. */
  method ValidateYoutubeChannel(order: Order, client: ActorClient)
    modifies order, client
    ensures var e := YoutubeChannelEffect(order.link, client.oracle, |old(client.log)|);
      && order.State() == Apply(old(order.State()), e)
      && client.log == old(client.log) + e.probes
  {
    var url: Value := Str(order.link);
    if !Y.IsChannelLink(order.link) {
      if !Y.IsVideoLink(order.link) {
        order.validateUrl := 0;
        return;
      }
      var result := ValidateChannel(client, url);
      if !result.found {
        order.validateUrl := 0;
        return;
      }
      order.editLink := Get(result.items[0], "channelUrl");
      url := Get(result.items[0], "channelUrl");
    }
    var valid := ValidateChannel(client, url);
    order.validateUrl := if valid.found then 1 else 0;
  }

  /** `validate_youtube_video`. */
  method ValidateYoutubeVideo(order: Order, client: ActorClient) returns (raised: bool)
    modifies order, client
    ensures var e := YoutubeVideoEffect(order.link, client.oracle, |old(client.log)|);
      && order.State() == Apply(old(order.State()), e)
      && client.log == old(client.log) + e.probes
      && raised == (e.outcome == Raised)
  {
    var url := order.link;
    if !Y.IsValidBaseUrl(url) {
      order.validateUrl := 0;
      return false;
    }
    if !Y.IsVideoLink(url) {
      if !Y.IsChannelLink(url) {
        order.validateUrl := 0;
        return false;
      }
      return true;  // `result[0]` on the coroutine `validate_video(url)`
    }
    var valid := ValidateVideo(client, url);
    order.validateUrl := if valid.found then 1 else 0;
    return false;
  }

  /** `validate_youtube_comment`; it never raises. */
  method ValidateYoutubeComment(order: Order, client: ActorClient)
    modifies order, client
    ensures var e := YoutubeCommentEffect(order.link, client.oracle, |old(client.log)|);
      && order.State() == Apply(old(order.State()), e)
      && client.log == old(client.log) + e.probes
  {
    var url := order.link;
    if !Y.IsVideoLink(url) {
      order.validateUrl := 0;
      return;
    }
    if !Y.IsCommentLink(url) {
      order.validateUrl := 0;
      return;
    }
    var valid := ValidateVideo(client, url);
    order.validateUrl := if valid.found then 1 else 0;
  }
}
