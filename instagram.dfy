/**
 * `InstagramValidator`: the link predicates, `_extract_username`, how the
 * profile and post actors' datasets are read, and the choice of the latest
 * post out of a profile's `latestPosts`.
 */
module Instagram {
  import opened Text
  import opened Values
  import opened Apify

  /** `_is_profile_card_link`. */
  predicate IsProfileCardLink(url: string) {
    Contains(url, "profile_card") || Contains(url, "profilecard")
  }

  /** `_is_post_link`. */
  predicate IsPostLink(url: string) {
    Contains(url, "/p/") || Contains(url, "/reel/") || Contains(url, "/share/")
  }

  /** `_is_tag_username`. */
  predicate IsTagUsername(url: string) {
    Contains(url, "@")
  }

  /** `_is_comment_link`. */
  predicate IsCommentLink(url: string) {
    Contains(url, "/c/")
  }

  const Domain: string := "instagram.com"
  const DomainPath: string := "instagram.com/"

  /** The characters that end a path segment. */
  const SegmentStops: set<char> := {'/', '?'}

  /**
   * The path segment after the first `instagram.com/`: the text up to the
   * first `/` or `?`, or up to the next `instagram.com/` if that comes first.
   */
  function PathSegment(url: string): (u: string)
    requires Contains(url, DomainPath)
    ensures LeadingSegment(url[Find(url, DomainPath).value + |DomainPath|..], u, SegmentStops, DomainPath)
  {
    SecondPieceUpTo(url, DomainPath, SegmentStops);
    UpTo(Split(url, DomainPath)[1], SegmentStops)
  }

  lemma PathHasDomain(url: string)
    ensures Contains(url, DomainPath) ==> Contains(url, Domain)
  {
    if Contains(url, DomainPath) {
      assert DomainPath[..|Domain|] == Domain;
      ContainsPrefix(url, DomainPath, |Domain|);
    }
  }

  /** `p.split('/')[0].split('?')[0]` cuts `p` at its first `/` or `?`. */
  lemma CutAtStops(p: string)
    ensures Split(Split(p, "/")[0], "?")[0] == UpTo(p, SegmentStops)
  {
    SplitCharIsUpTo(p, '/');
    SplitCharIsUpTo(UpTo(p, {'/'}), '?');
    UpToUpTo(p, {'/'}, {'?'});
    assert {'/'} + {'?'} == SegmentStops;
  }

  /**
   * `_extract_username`: a string without the domain is taken as the
   * username itself; otherwise the path segment after the first
   * `instagram.com/`, unless it is `p` or `reel`.  `None` also where
   * `split(...)[1]` raises (domain without a slash).
   */
  function ExtractUsername(url: string): (r: Option<string>)
    ensures url == "" ==> r.None?
    ensures url != "" && !Contains(url, Domain) ==> r == Some(url)
    ensures Contains(url, Domain) ==>
      (r.Some? <==> Contains(url, DomainPath) && PathSegment(url) != "p" && PathSegment(url) != "reel")
    ensures Contains(url, DomainPath) && r.Some? ==> r.value == PathSegment(url)
  {
    if url == "" then None
    else if !Contains(url, Domain) then
      PathHasDomain(url);
      Some(url)
    else
      var pieces := Split(url, DomainPath);
      if |pieces| < 2 then None
      else
        var u := Split(Split(pieces[1], "/")[0], "?")[0];
        CutAtStops(pieces[1]);
        if u == "p" || u == "reel" then None else Some(u)
  }

  /** `_extract_username` given `None`, as `validate_profile` may be. */
  function ExtractUsernameOpt(o: Option<string>): (r: Option<string>)
    ensures o.None? ==> r.None?
    ensures o.Some? ==> r == ExtractUsername(o.value)
  {
    match o
    case None => None
    case Some(url) => ExtractUsername(url)
  }

  /**
   * What `_extract_username` finds in a link is exactly the one leading
   * segment of the text after the first `instagram.com/`: it ends at the
   * first `/` or `?`, or at the next `instagram.com/` (where `split` also
   * cuts), and no shorter or longer string qualifies.
   */
  lemma ExtractedUsernameIsPathSegment(url: string)
    requires Contains(url, Domain) && ExtractUsername(url).Some?
    ensures Contains(url, DomainPath)
    ensures var rest := url[Find(url, DomainPath).value + |DomainPath|..];
      forall w :: LeadingSegment(rest, w, SegmentStops, DomainPath) <==> w == ExtractUsername(url).value
  {
    var rest := url[Find(url, DomainPath).value + |DomainPath|..];
    var u := ExtractUsername(url).value;
    forall w | LeadingSegment(rest, w, SegmentStops, DomainPath)
      ensures w == u
    {
      LeadingSegmentUnique(rest, w, u, SegmentStops, DomainPath);
    }
  }

  /** A domain without a following slash yields no username. */
  lemma DomainWithoutPath(url: string)
    requires Contains(url, Domain) && !Contains(url, DomainPath)
    ensures ExtractUsername(url).None?
  {
  }

  /** `validate_profile`'s result: a bare `False`, or a `[found, items]` pair. */
  datatype ProfileCall = BareFalse | Checked(result: ProbeResult)

  /**
   * How `validate_profile` reads the profile actor's dataset: found when
   * there is a first item and its `error` is falsy.  A client exception
   * gives `[False, '']`, and so does an empty dataset, because the debug
   * read of `items[0]` raises first; the items of a result that is not found
   * are never read, so both carry an empty list.
   */
  function ProfileVerdict(resp: Response): (r: ProbeResult)
    ensures r.found <==> resp.Items? && |resp.items| > 0 && !Truthy(Get(resp.items[0], "error"))
    ensures r.found ==> r.items == resp.items
  {
    match resp
    case Failure => ProbeResult(false, [])
    case Items(xs) =>
      if |xs| == 0 then ProbeResult(false, [])
      else ProbeResult(!Truthy(Get(xs[0], "error")), xs)
  }

  /** Some item of the dataset carries a truthy `error`. */
  predicate AnyError(xs: seq<Item>) {
    exists k :: 0 <= k < |xs| && Truthy(Get(xs[k], "error"))
  }

  /**
   * How `validate_post` reads the post actor's dataset.  On a client
   * exception its handler returns the unbound `items`, so the exception
   * escapes the call: `None`.  An empty dataset gives `[False, []]`;
   * otherwise found when no item has a truthy `error`.
   */
  function PostVerdict(resp: Response): (r: Option<ProbeResult>)
    ensures r.None? <==> resp.Failure?
    ensures r.Some? ==> (r.value.found <==> |resp.items| > 0 && !AnyError(resp.items))
    ensures r.Some? && r.value.found ==> r.value.items == resp.items
  {
    match resp
    case Failure => None
    case Items(xs) =>
      if |xs| == 0 then Some(ProbeResult(false, []))
      else Some(ProbeResult(!AnyError(xs), xs))
  }

  /** Every element is a dict holding `key` (so `post[key]` does not raise). */
  predicate AllHave(ps: seq<Value>, key: string) {
    forall k :: 0 <= k < |ps| ==> ps[k].Dict? && key in ps[k].fields
  }

  /** A post whose `type` is the string `Video`. */
  predicate IsVideo(p: Value) {
    p.Dict? && "type" in p.fields && p.fields["type"] == Str("Video")
  }

  /** `(post for post in ps if post['type'] == 'Video')`. */
  function Videos(ps: seq<Value>): (r: seq<Value>)
    ensures |r| <= |ps|
    ensures forall k :: 0 <= k < |r| ==> IsVideo(r[k])
  {
    if |ps| == 0 then []
    else if IsVideo(ps[0]) then [ps[0]] + Videos(ps[1..])
    else Videos(ps[1..])
  }

  /** The videos of a list with a first element. */
  lemma VideosCons(x: Value, t: seq<Value>)
    ensures Videos([x] + t) == (if IsVideo(x) then [x] else []) + Videos(t)
  {
    assert ([x] + t)[0] == x;
    assert ([x] + t)[1..] == t;
  }

  /** Filtering keeps the order: the videos of `a + b` are those of `a`, then those of `b`. */
  lemma {:induction false} VideosAppend(a: seq<Value>, b: seq<Value>)
    ensures Videos(a + b) == Videos(a) + Videos(b)
    decreases |a|
  {
    if |a| == 0 {
      assert a + b == b;
    } else {
      assert a == [a[0]] + a[1..];
      assert a + b == [a[0]] + (a[1..] + b);
      VideosCons(a[0], a[1..] + b);
      VideosCons(a[0], a[1..]);
      VideosAppend(a[1..], b);
    }
  }

  /**
   * Where the `m`-th video stands in `ps`: the videos before it in `ps` are
   * exactly the first `m` videos.
   */
  function VideoPosition(ps: seq<Value>, m: nat): (i: nat)
    requires m < |Videos(ps)|
    ensures i < |ps| && ps[i] == Videos(ps)[m]
    ensures Videos(ps[..i]) == Videos(ps)[..m]
    decreases |ps|
  {
    var x, t := ps[0], ps[1..];
    assert ps == [x] + t;
    VideosCons(x, t);
    if IsVideo(x) && m == 0 then
      assert ps[..0] == [];
      0
    else
      var m' := if IsVideo(x) then m - 1 else m;
      var j := VideoPosition(t, m');
      assert ps[..j + 1] == [x] + t[..j];
      VideosCons(x, t[..j]);
      j + 1
  }

  /**
   * The videos of `ps` are drawn from `ps`, and every video of `ps` is
   * among them.
   */
  lemma VideosMembers(ps: seq<Value>)
    ensures forall k :: 0 <= k < |Videos(ps)| ==> Videos(ps)[k] in ps
    ensures forall k :: 0 <= k < |ps| && IsVideo(ps[k]) ==> ps[k] in Videos(ps)
  {
    forall k | 0 <= k < |Videos(ps)|
      ensures Videos(ps)[k] in ps
    {
      var i := VideoPosition(ps, k);
    }
    forall k | 0 <= k < |ps| && IsVideo(ps[k])
      ensures ps[k] in Videos(ps)
    {
      assert ps == ps[..k] + ([ps[k]] + ps[k + 1..]);
      VideosAppend(ps[..k], [ps[k]] + ps[k + 1..]);
      VideosCons(ps[k], ps[k + 1..]);
      assert Videos(ps)[|Videos(ps[..k])|] == ps[k];
    }
  }

  /** The keys `x[key]` of a list of dicts that all hold `key`. */
  function KeysOf(ps: seq<Value>, key: string): (r: seq<Value>)
    requires AllHave(ps, key)
    ensures |r| == |ps|
    ensures forall k :: 0 <= k < |ps| ==> r[k] == ps[k].fields[key]
  {
    if |ps| == 0 then [] else [ps[0].fields[key]] + KeysOf(ps[1..], key)
  }

  /**
   * `max(candidates, key=lambda x: x['timestamp'])['url']` where the
   * candidates are `latestPosts` (or only its videos, for reels): `None`
   * where any step raises ( `latestPosts` not a list, a post that is not a
   * dict with `type` when filtering for videos, a candidate without
   * `timestamp`, no candidate at all, timestamps that do not compare, or a
   * winner without `url`); otherwise the winner's `url`.
   */
  function LatestPostUrl(latestPosts: Value, videosOnly: bool): Option<Value> {
    if !latestPosts.List? then None
    else
      var ps := latestPosts.elems;
      if videosOnly && !AllHave(ps, "type") then None
      else
        var cs := if videosOnly then Videos(ps) else ps;
        if !AllHave(cs, "timestamp") then None
        else match MaxIndex(KeysOf(cs, "timestamp"))
          case None => None
          case Some(m) =>
            MaxIndexIsFirstMaximum(KeysOf(cs, "timestamp"));
            if "url" in cs[m].fields then Some(cs[m].fields["url"]) else None
  }

  /** A post `max` chooses among: any post, or only a video for reels. */
  predicate Candidate(p: Value, videosOnly: bool) {
    videosOnly ==> IsVideo(p)
  }

  /**
   * `ps[i]` is the post `max` picks, with url `url`: a candidate with a
   * `timestamp` that no other candidate's exceeds, and that is greater than
   * the timestamp of every candidate before it in `ps` (on ties the first
   * one wins).
   */
  predicate IsLatest(ps: seq<Value>, i: nat, videosOnly: bool, url: Value)
    requires i < |ps|
  {
    var p := ps[i];
    && Candidate(p, videosOnly) && p.Dict? && "url" in p.fields && p.fields["url"] == url
    && "timestamp" in p.fields
    && (forall q :: q in ps && Candidate(q, videosOnly) ==>
          q == p || (q.Dict? && "timestamp" in q.fields
                     && Greater(q.fields["timestamp"], p.fields["timestamp"]) == Some(false)))
    && (forall j :: 0 <= j < i && Candidate(ps[j], videosOnly) ==>
          ps[j].Dict? && "timestamp" in ps[j].fields
          && Greater(p.fields["timestamp"], ps[j].fields["timestamp"]) == Some(true))
  }

  /** The chosen url is that of the post of `latestPosts` that `max` picks. */
  lemma LatestPostIsNewest(latestPosts: Value, videosOnly: bool)
    requires LatestPostUrl(latestPosts, videosOnly).Some?
    ensures latestPosts.List?
    ensures exists i :: (0 <= i < |latestPosts.elems|
      && IsLatest(latestPosts.elems, i, videosOnly, LatestPostUrl(latestPosts, videosOnly).value))
  {
    var ps := latestPosts.elems;
    var cs := if videosOnly then Videos(ps) else ps;
    assert AllHave(cs, "timestamp");
    var keys := KeysOf(cs, "timestamp");
    var m := MaxIndex(keys).value;
    MaxIndexIsFirstMaximum(keys);
    NewestCandidate(cs, m);
    var i := if videosOnly then VideoPosition(ps, m) else m;
    var p := ps[i];
    assert p == cs[m];
    if videosOnly {
      VideosMembers(ps);
      VideosMembers(ps[..i]);
    }
    forall q | q in ps && Candidate(q, videosOnly)
      ensures q in cs
    {
    }
    forall j | 0 <= j < i && Candidate(ps[j], videosOnly)
      ensures ps[j].Dict? && "timestamp" in ps[j].fields
      ensures Greater(p.fields["timestamp"], ps[j].fields["timestamp"]) == Some(true)
    {
      if videosOnly {
        assert ps[j] == ps[..i][j];
        assert ps[j] in cs[..m];
        var l :| 0 <= l < m && cs[l] == ps[j];
        assert keys[l] == ps[j].fields["timestamp"];
      } else {
        assert keys[j] == ps[j].fields["timestamp"];
      }
    }
    assert IsLatest(ps, i, videosOnly, LatestPostUrl(latestPosts, videosOnly).value);
  }

  /** The candidate `max` picks has a timestamp no other candidate's exceeds. */
  lemma NewestCandidate(cs: seq<Value>, m: nat)
    requires AllHave(cs, "timestamp") && MaxIndex(KeysOf(cs, "timestamp")) == Some(m)
    ensures m < |cs|
    ensures forall q :: q in cs ==>
              q == cs[m] || Greater(q.fields["timestamp"], cs[m].fields["timestamp"]) == Some(false)
  {
    var keys := KeysOf(cs, "timestamp");
    MaxIndexIsFirstMaximum(keys);
    forall q | q in cs
      ensures q == cs[m] || Greater(q.fields["timestamp"], cs[m].fields["timestamp"]) == Some(false)
    {
      var k :| 0 <= k < |cs| && cs[k] == q;
      if k != m {
        assert Greater(keys[k], keys[m]) == Some(false);
      }
    }
  }

  /**
   * No candidate means `max` raises: a profile without posts (or, for
   * reels, without video posts) never yields a url.
   */
  lemma NoCandidateNoUrl(latestPosts: Value, videosOnly: bool)
    requires latestPosts.List?
    requires if videosOnly then forall p :: p in latestPosts.elems ==> !IsVideo(p) else latestPosts.elems == []
    ensures LatestPostUrl(latestPosts, videosOnly).None?
  {
    VideosMembers(latestPosts.elems);
  }
}
