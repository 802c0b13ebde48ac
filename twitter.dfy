/**
 * `TwitterValidator`'s link grammar.  The Twitter order protocols themselves
 * are dormant: the router only forwards Twitter orders for manual handling.
 */
module Twitter {
  import opened Text

  /** `_is_tweet_link`. */
  predicate IsTweetLink(url: string) {
    Contains(url, "twitter.com") && Contains(url, "/status/")
  }

  /**
   * `_extract_username`: a string without the domain is the username itself;
   * otherwise the path segment after the first `twitter.com/`, or nothing
   * where `split(...)[1]` raises.
   */
  function ExtractUsername(url: string): (r: Option<string>)
    ensures url == "" ==> r.None?
    ensures url != "" && !Contains(url, "twitter.com") ==> r == Some(url)
    ensures Contains(url, "twitter.com") ==> (r.Some? <==> Contains(url, "twitter.com/"))
  {
    if url == "" then None
    else if !Contains(url, "twitter.com") then Some(url)
    else
      var pieces := Split(url, "twitter.com/");
      if |pieces| < 2 then None else Some(Split(pieces[1], "/")[0])
  }

  /**
   * The username of a link is exactly the one leading segment of the text
   * after the first `twitter.com/`: it ends at the next `/`, or at the next
   * `twitter.com/` (where `split` also cuts), and no other string qualifies.
   */
  lemma {:induction false} ExtractedPathSegment(url: string)
    requires Contains(url, "twitter.com/")
    ensures ExtractUsername(url).Some?
    ensures var rest := url[Find(url, "twitter.com/").value + 12..];
      forall w :: LeadingSegment(rest, w, {'/'}, "twitter.com/") <==> w == ExtractUsername(url).value
  {
    ContainsPrefix(url, "twitter.com/", 11);
    assert "twitter.com/"[..11] == "twitter.com";
    var pieces := Split(url, "twitter.com/");
    SplitCharIsUpTo(pieces[1], '/');
    SecondPieceUpTo(url, "twitter.com/", {'/'});
    var rest := url[Find(url, "twitter.com/").value + 12..];
    var u := ExtractUsername(url).value;
    forall w | LeadingSegment(rest, w, {'/'}, "twitter.com/")
      ensures w == u
    {
      LeadingSegmentUnique(rest, w, u, {'/'}, "twitter.com/");
    }
  }
}
