/**
 * `TiktokValidator`'s link grammar.  The TikTok order protocols themselves
 * are dormant: the router only forwards TikTok orders for manual handling.
 */
module Tiktok {
  import opened Text

  /** `_is_video_link`. */
  predicate IsVideoLink(url: string) {
    Contains(url, "tiktok.com") && Contains(url, "/video/")
  }

  /**
   * `_extract_username`: a string without the domain is the username itself;
   * a link yields the text after its first `@`, cut at `/` and `?`
   * (`split('@')[1]` also stops at a second `@`); a link without `@` yields
   * nothing.
   */
  function ExtractUsername(url: string): (r: Option<string>)
    ensures url == "" ==> r.None?
    ensures url != "" && !Contains(url, "tiktok.com") ==> r == Some(url)
    ensures Contains(url, "tiktok.com") ==> (r.Some? <==> Contains(url, "@"))
  {
    if url == "" then None
    else if !Contains(url, "tiktok.com") then Some(url)
    else if Contains(url, "@") then Some(Split(Split(Split(url, "@")[1], "/")[0], "?")[0])
    else None
  }

  /** The handle of a link is the text after the first `@` up to the first `@`, `/` or `?`. */
  lemma {:induction false} ExtractedHandle(url: string)
    requires Contains(url, "tiktok.com") && Contains(url, "@")
    ensures ExtractUsername(url) == Some(UpTo(url[Find(url, "@").value + 1..], {'@', '/', '?'}))
  {
    assert OccursAt(url, "@", Find(url, "@").value);
    var rest := url[Find(url, "@").value + 1..];
    SplitSecond(url, "@");
    SplitCharIsUpTo(rest, '@');
    var a := UpTo(rest, {'@'});
    SplitCharIsUpTo(a, '/');
    UpToUpTo(rest, {'@'}, {'/'});
    var b := UpTo(rest, {'@'} + {'/'});
    SplitCharIsUpTo(b, '?');
    UpToUpTo(rest, {'@'} + {'/'}, {'?'});
    assert {'@'} + {'/'} + {'?'} == {'@', '/', '?'};
  }
}
