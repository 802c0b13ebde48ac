/**
 * `check_order_url`: each scraped order is looked up in the catalogue by its
 * service number, its service name picks a protocol (or a fixed manual
 * verdict), and the order ends up in the processed list, in the manual list,
 * or in neither when an exception escapes (its `validate_url` is then 0).
 */
module Router {
  import opened Text
  import opened Values
  import opened Apify
  import opened Orders
  import opened Services
  import opened Protocols
  import opened Validation
  import opened Runs

  /** What the service name selects, tested in the router's order. */
  datatype Route =
    | Followers | ReelsViews | CustomComments | InstagramPosts
    | Subscribers | CommentLikes | YoutubeVideos
    | TiktokOrders | TwitterOrders | Unsupported

  const Instagram: string := "인스타그램"
  const Youtube: string := "유튜브"
  const Tiktok: string := "틱톡"
  const Twitter: string := "트위터"

  const NoteCustomComment: string := "커스텀 댓글 주문으로 수동 주문이 필요합니다."
  const NoteTiktok: string := "틱톡 서비스 주문입니다."
  const NoteTwitter: string := "트위터 서비스 주문입니다."

  predicate IsInstagramRoute(r: Route) {
    r == Followers || r == ReelsViews || r == CustomComments || r == InstagramPosts
  }

  predicate IsYoutubeRoute(r: Route) {
    r == Subscribers || r == CommentLikes || r == YoutubeVideos
  }

  /** The platform keywords are tried in the order Instagram, YouTube, TikTok, Twitter. */
  function Classify(name: string): (r: Route)
    ensures IsInstagramRoute(r) <==> Contains(name, Instagram)
    ensures IsYoutubeRoute(r) <==> !Contains(name, Instagram) && Contains(name, Youtube)
    ensures r == TiktokOrders <==> !Contains(name, Instagram) && !Contains(name, Youtube) && Contains(name, Tiktok)
    ensures r == TwitterOrders <==>
      !Contains(name, Instagram) && !Contains(name, Youtube) && !Contains(name, Tiktok) && Contains(name, Twitter)
    ensures IsInstagramRoute(r) ==>
      (r == Followers <==> Contains(name, "팔로워"))
      && (r == ReelsViews <==> !Contains(name, "팔로워") && Contains(name, "릴스 조회수"))
      && (r == CustomComments <==>
            !Contains(name, "팔로워") && !Contains(name, "릴스 조회수") && Contains(name, "커스텀 댓글"))
    ensures IsYoutubeRoute(r) ==>
      (r == Subscribers <==> Contains(name, "구독자"))
      && (r == CommentLikes <==> !Contains(name, "구독자") && Contains(name, "댓글 좋아요"))
  {
    if Contains(name, Instagram) then
      if Contains(name, "팔로워") then Followers
      else if Contains(name, "릴스 조회수") then ReelsViews
      else if Contains(name, "커스텀 댓글") then CustomComments
      else InstagramPosts
    else if Contains(name, Youtube) then
      if Contains(name, "구독자") then Subscribers
      else if Contains(name, "댓글 좋아요") then CommentLikes
      else YoutubeVideos
    else if Contains(name, Tiktok) then TiktokOrders
    else if Contains(name, Twitter) then TwitterOrders
    else Unsupported
  }

  /** The routes that run a validation protocol. */
  predicate RunsProtocol(r: Route) {
    r == Followers || r == ReelsViews || r == InstagramPosts
    || r == Subscribers || r == CommentLikes || r == YoutubeVideos
  }

  function RunProtocol(route: Route, link: string, oracle: Oracle, k: nat): Effect
    requires RunsProtocol(route)
  {
    match route
    case Followers => InstagramProfileEffect(link, oracle, k)
    case ReelsViews => InstagramReelsEffect(link, oracle, k)
    case InstagramPosts => InstagramPostEffect(link, oracle, k)
    case Subscribers => YoutubeChannelEffect(link, oracle, k)
    case CommentLikes => YoutubeCommentEffect(link, oracle, k)
    case YoutubeVideos => YoutubeVideoEffect(link, oracle, k)
  }

  /** The list an order is appended to: `processed_orders`, `manual_orders`, or neither. */
  datatype Dest = Processed | Manual | Dropped

  datatype Routed = Routed(dest: Dest, after: OrderState, probes: seq<Request>)

  /** The order as routed without any protocol: `validate_url` 0, maybe a note, manual. */
  function ToManual(s: OrderState, note: string): Routed {
    Routed(Manual, s.(validateUrl := 0, note := note), [])
  }

  /** The order after a protocol with effect `e`: an exception drops it with `validate_url` 0. */
  function Finish(s: OrderState, e: Effect): (r: Routed)
    ensures r.probes == e.probes
    ensures r.dest == Processed <==> e.outcome == Accepted
    ensures r.dest == Dropped <==> e.outcome == Raised
    ensures r.after == Apply(s, e).(validateUrl := r.after.validateUrl)
    ensures r.after.validateUrl == (if e.outcome == Accepted then 1 else 0)
  {
    var t := Apply(s, e);
    match e.outcome
    case Raised => Routed(Dropped, t.(validateUrl := 0), e.probes)
    case Accepted => Routed(Processed, t, e.probes)
    case Rejected => Routed(Manual, t, e.probes)
  }

  /** Routing by the catalogue row's service name. */
  function RouteNamed(name: string, s: OrderState, oracle: Oracle, k: nat): (r: Routed)
    ensures r.after.validateUrl == 0 || r.after.validateUrl == 1
    ensures r.dest == Processed <==> r.after.validateUrl == 1
    ensures r.after == s.(editLink := r.after.editLink, note := r.after.note, validateUrl := r.after.validateUrl)
    ensures r.dest == Processed ==> r.after.note == s.note && r.probes != []
    ensures !RunsProtocol(Classify(name)) ==> r.dest == Manual && r.probes == [] && r.after.editLink == s.editLink
    ensures Classify(name) == CustomComments ==> r.after.note == NoteCustomComment
    ensures Classify(name) == TiktokOrders ==> r.after.note == NoteTiktok
    ensures Classify(name) == TwitterOrders ==> r.after.note == NoteTwitter
    ensures Classify(name) == Unsupported || RunsProtocol(Classify(name)) ==> r.after.note == s.note
    ensures |r.probes| <= 2
  {
    var route := Classify(name);
    if route == CustomComments then ToManual(s, NoteCustomComment)
    else if route == TiktokOrders then ToManual(s, NoteTiktok)
    else if route == TwitterOrders then ToManual(s, NoteTwitter)
    else if route == Unsupported then ToManual(s, s.note)
    else Finish(s, RunProtocol(route, s.link, oracle, k))
  }

  /** One pass of the router's loop body on an order in state `s`. */
  function RouteOne(rows: seq<ServiceRow>, s: OrderState, oracle: Oracle, k: nat): (r: Routed)
    ensures r.after.validateUrl == 0 || r.after.validateUrl == 1
    ensures r.dest == Processed <==> r.after.validateUrl == 1
    ensures r.after == s.(editLink := r.after.editLink, note := r.after.note, validateUrl := r.after.validateUrl)
    ensures r.dest == Processed ==> r.after.note == s.note && r.probes != []
    ensures |r.probes| <= 2
  {
    match ParseInt(s.serviceNum)
    case None => Routed(Dropped, s.(validateUrl := 0), [])  // `int(order['service_num'])` raises
    case Some(n) =>
      match RowByCode(rows, n)
      case None => ToManual(s, s.note)
      case Some(row) => RouteNamed(row.name, s, oracle, k)
  }

  /** The actor calls a routed order made. */
  function ProbesOf(r: Routed): seq<Request> {
    r.probes
  }

  predicate IsProcessed(r: Routed) {
    r.dest == Processed
  }

  predicate IsManual(r: Routed) {
    r.dest == Manual
  }

  predicate IsDropped(r: Routed) {
    r.dest == Dropped
  }

  /** A step of a run: routes one order given the number of actor calls made before it. */
  type Step = (OrderState, nat) -> Routed

  /** The router's step over the catalogue `rows` and the actors' answers `oracle`. */
  function RouteStep(rows: seq<ServiceRow>, oracle: Oracle): (f: Step)
    ensures forall s, k :: At(f, s, k) == RouteOne(rows, s, oracle, k)
  {
    (s: OrderState, k: nat) => RouteOne(rows, s, oracle, k)
  }

  /**
   * A step that agrees with the router on every order, known only through
   * `RouteOne` (so that reasoning about a run does not unfold the protocols).
   */
  lemma AbstractRouter(rows: seq<ServiceRow>, oracle: Oracle) returns (f: Step)
    ensures forall s, k {:trigger RouteOne(rows, s, oracle, k)} :: At(f, s, k) == RouteOne(rows, s, oracle, k)
  {
    f := RouteStep(rows, oracle);
  }

  /** A step that agrees with the router on every order is the router's step. */
  lemma AgreesWithRouter(f: Step, rows: seq<ServiceRow>, oracle: Oracle)
    requires forall s, k {:trigger RouteOne(rows, s, oracle, k)} :: At(f, s, k) == RouteOne(rows, s, oracle, k)
    ensures forall s, k :: At(f, s, k) == At(RouteStep(rows, oracle), s, k)
  {
    forall s, k ensures At(f, s, k) == At(RouteStep(rows, oracle), s, k) {
      assert At(f, s, k) == RouteOne(rows, s, oracle, k);
    }
  }

  /**
   * The router's loop over the order states `ss`: each order is routed on
   * its own state, its actor calls numbered after those of the orders
   * before it.
   */
  lemma RoutedOnItsOwn(rows: seq<ServiceRow>, oracle: Oracle, ss: seq<OrderState>, k: nat, j: nat)
    requires j < |ss|
    ensures var rs := Run(RouteStep(rows, oracle), ProbesOf, ss, k);
      rs[j] == RouteOne(rows, ss[j], oracle, k + |Concat(ProbesOf, rs[..j])|)
  {
    RunPointwise(RouteStep(rows, oracle), ProbesOf, ss, k, j);
  }

  /**
   * After routing, every order carries a final verdict, 1 exactly for the
   * processed ones, and nothing but its edit link, note and verdict changed.
   */
  lemma RoutedVerdicts(rows: seq<ServiceRow>, oracle: Oracle, ss: seq<OrderState>, k: nat, j: nat)
    requires j < |ss|
    ensures var r := Run(RouteStep(rows, oracle), ProbesOf, ss, k)[j];
      && (r.after.validateUrl == 0 || r.after.validateUrl == 1)
      && (r.dest == Processed <==> r.after.validateUrl == 1)
      && r.after == ss[j].(editLink := r.after.editLink, note := r.after.note, validateUrl := r.after.validateUrl)
  {
    RoutedOnItsOwn(rows, oracle, ss, k, j);
  }

  /**
   * The processed list is exactly the orders left with `validate_url` 1,
   * in order; these are what `process_order` then submits.
   */
  lemma ProcessedAreValidated(orders: seq<Order>, rows: seq<ServiceRow>, oracle: Oracle, ss: seq<OrderState>, k: nat)
    requires |orders| == |ss|
    ensures var rs := Run(RouteStep(rows, oracle), ProbesOf, ss, k);
      var processed := Pick(orders, rs, IsProcessed);
      && (forall o :: o in processed ==> exists j :: 0 <= j < |ss| && orders[j] == o && rs[j].after.validateUrl == 1)
      && (forall j :: 0 <= j < |ss| && rs[j].after.validateUrl == 1 ==> orders[j] in processed)
  {
    var rs := Run(RouteStep(rows, oracle), ProbesOf, ss, k);
    ProcessedIffVerdict(rows, oracle, ss, k);
    PickMembers(orders, rs, IsProcessed);
  }

  lemma ProcessedIffVerdict(rows: seq<ServiceRow>, oracle: Oracle, ss: seq<OrderState>, k: nat)
    ensures var rs := Run(RouteStep(rows, oracle), ProbesOf, ss, k);
      forall j :: 0 <= j < |ss| ==> (IsProcessed(rs[j]) <==> rs[j].after.validateUrl == 1)
  {
    forall j | 0 <= j < |ss|
      ensures var rs := Run(RouteStep(rows, oracle), ProbesOf, ss, k);
        IsProcessed(rs[j]) <==> rs[j].after.validateUrl == 1
    {
      RoutedVerdicts(rows, oracle, ss, k, j);
    }
  }

  /** Every order goes to exactly one of the three destinations. */
  lemma {:induction false} PickPartition(orders: seq<Order>, rs: seq<Routed>)
    requires |orders| == |rs|
    ensures |Pick(orders, rs, IsProcessed)| + |Pick(orders, rs, IsManual)| + |Pick(orders, rs, IsDropped)| == |orders|
    decreases |orders|
  {
    if |orders| > 0 {
      PickPartition(orders[1..], rs[1..]);
    }
  }

  /**
   * An order whose service number is not in the catalogue goes to the
   * manual list untouched but for `validate_url` 0, without any actor call.
   * This is where a scraped "-1" (no enabled catalogue row) ends up when no
   * row carries the number -1.
   */
  lemma UnknownServiceIsManual(rows: seq<ServiceRow>, s: OrderState, oracle: Oracle, k: nat)
    requires ParseInt(s.serviceNum).Some?
    requires forall j :: 0 <= j < |rows| ==> rows[j].code != ParseInt(s.serviceNum).value
    ensures RouteOne(rows, s, oracle, k) == Routed(Manual, s.(validateUrl := 0), [])
  {
  }

  /**
   * TikTok, Twitter, custom-comment and unsupported services are never
   * checked with an actor: they go to the manual list with `validate_url` 0
   * and, but for unsupported ones, their fixed note.
   */
  lemma ManualRoutesMakeNoCalls(rows: seq<ServiceRow>, s: OrderState, oracle: Oracle, k: nat)
    requires ParseInt(s.serviceNum).Some? && RowByCode(rows, ParseInt(s.serviceNum).value).Some?
    requires !RunsProtocol(Classify(RowByCode(rows, ParseInt(s.serviceNum).value).value.name))
    ensures var r := RouteOne(rows, s, oracle, k);
      r.dest == Manual && r.probes == [] && r.after.editLink == s.editLink && r.after.validateUrl == 0
    ensures var r := RouteOne(rows, s, oracle, k);
      var route := Classify(RowByCode(rows, ParseInt(s.serviceNum).value).value.name);
      r.after.note == (match route
                       case TiktokOrders => NoteTiktok
                       case TwitterOrders => NoteTwitter
                       case CustomComments => NoteCustomComment
                       case _ => s.note)
  {
  }

  /** The protocol a route selects, run on the order. */
  method RunProtocolMethod(order: Order, client: ActorClient, route: Route) returns (raised: bool)
    requires RunsProtocol(route)
    modifies order, client
    ensures var e := RunProtocol(route, order.link, client.oracle, |old(client.log)|);
      && order.State() == Apply(old(order.State()), e)
      && client.log == old(client.log) + e.probes
      && raised == (e.outcome == Raised)
  {
    match route {
      case Followers =>
        raised := ValidateInstagramProfile(order, client);
      case ReelsViews =>
        raised := ValidateInstagramReels(order, client);
      case InstagramPosts =>
        raised := ValidateInstagramPost(order, client);
      case Subscribers =>
        ValidateYoutubeChannel(order, client);
        raised := false;
      case CommentLikes =>
        ValidateYoutubeComment(order, client);
        raised := false;
      case YoutubeVideos =>
        raised := ValidateYoutubeVideo(order, client);
    }
  }

  /** The router's handling of an order whose catalogue row is named `name`. */
  method RouteNamedMethod(order: Order, client: ActorClient, name: string) returns (dest: Dest)
    modifies order, client
    ensures var r := RouteNamed(name, old(order.State()), client.oracle, |old(client.log)|);
      dest == r.dest && order.State() == r.after && client.log == old(client.log) + r.probes
  {
    var route := Classify(name);
    if route == CustomComments {
      order.validateUrl := 0;
      order.note := NoteCustomComment;
      return Manual;
    } else if route == TiktokOrders {
      order.validateUrl := 0;
      order.note := NoteTiktok;
      return Manual;
    } else if route == TwitterOrders {
      order.validateUrl := 0;
      order.note := NoteTwitter;
      return Manual;
    } else if route == Unsupported {
      order.validateUrl := 0;
      return Manual;
    }
    var raised := RunProtocolMethod(order, client, route);
    if raised {
      order.validateUrl := 0;
      return Dropped;
    }
    dest := if order.validateUrl == 1 then Processed else Manual;
  }

  /** `check_order_url`'s loop body on one order. */
  method RouteOrder(order: Order, client: ActorClient, rows: seq<ServiceRow>) returns (dest: Dest)
    modifies order, client
    ensures var r := RouteOne(rows, old(order.State()), client.oracle, |old(client.log)|);
      dest == r.dest && order.State() == r.after && client.log == old(client.log) + r.probes
  {
    var serviceNum := ParseInt(order.serviceNum);
    if serviceNum.None? {
      order.validateUrl := 0;
      return Dropped;
    }
    var row := RowByCode(rows, serviceNum.value);
    if row.None? {
      order.validateUrl := 0;
      return Manual;
    }
    dest := RouteNamedMethod(order, client, row.value.name);
  }

  /** `RouteOrder` seen through a ghost step that agrees with the router. */
  method RouteStepOrder(order: Order, client: ActorClient, rows: seq<ServiceRow>, ghost step: Step)
    returns (dest: Dest)
    requires forall s, k {:trigger RouteOne(rows, s, client.oracle, k)} :: At(step, s, k) == RouteOne(rows, s, client.oracle, k)
    modifies order, client
    ensures var r := At(step, old(order.State()), |old(client.log)|);
      dest == r.dest && order.State() == r.after && client.log == old(client.log) + r.probes
  {
    dest := RouteOrder(order, client, rows);
  }

  /** Routes order `i` of the list; the other orders are left as they were. */
  method RouteNth(orders: seq<Order>, i: nat, client: ActorClient, rows: seq<ServiceRow>, ghost step: Step)
    returns (dest: Dest)
    requires i < |orders| && Distinct(orders)
    requires forall s, k {:trigger RouteOne(rows, s, client.oracle, k)} :: At(step, s, k) == RouteOne(rows, s, client.oracle, k)
    modifies orders[i], client
    ensures var r := At(step, old(orders[i].State()), |old(client.log)|);
      && dest == r.dest
      && States(orders) == old(States(orders))[i := r.after]
      && client.log == old(client.log) + r.probes
  {
    ghost var before := States(orders);
    dest := RouteStepOrder(orders[i], client, rows, step);
    ghost var after := States(orders);
    forall j | 0 <= j < |orders|
      ensures after[j] == before[i := orders[i].State()][j]
    {
      if j != i {
        assert orders[j] != orders[i];
      }
    }
    assert after == before[i := orders[i].State()];
  }

  /**
   * One turn of the router's loop on values: with the orders before `i`
   * routed as the run `whole` says, routing order `i` moves the log and
   * both lists past it.
   */
  lemma TurnAdvances(orders: seq<Order>, step: Step, start: seq<OrderState>, whole: seq<Routed>, i: nat,
                     log0: seq<Request>,
                     log: seq<Request>, processed: seq<Order>, manual: seq<Order>, states: seq<OrderState>,
                     log': seq<Request>, processed': seq<Order>, manual': seq<Order>, states': seq<OrderState>)
    requires i < |orders| && |start| == |orders| == |whole| == |states|
    requires whole[i..] == RunFrom(step, ProbesOf, start, i, |log|)
    requires log + Concat(ProbesOf, whole[i..]) == log0 + Concat(ProbesOf, whole)
    requires processed + Pick(orders[i..], whole[i..], IsProcessed) == Pick(orders, whole, IsProcessed)
    requires manual + Pick(orders[i..], whole[i..], IsManual) == Pick(orders, whole, IsManual)
    requires forall j :: 0 <= j < i ==> states[j] == whole[j].after
    requires forall j :: i <= j < |orders| ==> states[j] == start[j]
    requires var r := At(step, states[i], |log|);
      && log' == log + r.probes
      && processed' == (if r.dest == Processed then processed + [orders[i]] else processed)
      && manual' == (if r.dest == Manual then manual + [orders[i]] else manual)
      && states' == states[i := r.after]
    ensures whole[i + 1..] == RunFrom(step, ProbesOf, start, i + 1, |log'|)
    ensures log' + Concat(ProbesOf, whole[i + 1..]) == log0 + Concat(ProbesOf, whole)
    ensures processed' + Pick(orders[i + 1..], whole[i + 1..], IsProcessed) == Pick(orders, whole, IsProcessed)
    ensures manual' + Pick(orders[i + 1..], whole[i + 1..], IsManual) == Pick(orders, whole, IsManual)
    ensures forall j :: 0 <= j < i + 1 ==> states'[j] == whole[j].after
    ensures forall j :: i + 1 <= j < |orders| ==> states'[j] == start[j]
  {
    assert states[i] == start[i];
    RunFromStep(step, ProbesOf, start, i, |log|, whole);
    var r := whole[i];
    assert log' == log + ProbesOf(r);
    ConcatStep(ProbesOf, whole, i, log);
    PickStep(orders, whole, IsProcessed, i, processed);
    PickStep(orders, whole, IsManual, i, manual);
  }

  /** One turn of the router's loop on the orders and the actor client. */
  method RouteTurn(orders: seq<Order>, rows: seq<ServiceRow>, client: ActorClient, i: nat,
                   processed: seq<Order>, manual: seq<Order>,
                   ghost step: Step, ghost start: seq<OrderState>, ghost whole: seq<Routed>, ghost log0: seq<Request>)
    returns (processed': seq<Order>, manual': seq<Order>)
    requires Distinct(orders) && i < |orders| && |start| == |orders| == |whole|
    requires forall s, k {:trigger RouteOne(rows, s, client.oracle, k)} :: At(step, s, k) == RouteOne(rows, s, client.oracle, k)
    requires whole[i..] == RunFrom(step, ProbesOf, start, i, |client.log|)
    requires client.log + Concat(ProbesOf, whole[i..]) == log0 + Concat(ProbesOf, whole)
    requires processed + Pick(orders[i..], whole[i..], IsProcessed) == Pick(orders, whole, IsProcessed)
    requires manual + Pick(orders[i..], whole[i..], IsManual) == Pick(orders, whole, IsManual)
    requires forall j :: 0 <= j < i ==> States(orders)[j] == whole[j].after
    requires forall j :: i <= j < |orders| ==> States(orders)[j] == start[j]
    modifies orders[i], client
    ensures whole[i + 1..] == RunFrom(step, ProbesOf, start, i + 1, |client.log|)
    ensures client.log + Concat(ProbesOf, whole[i + 1..]) == log0 + Concat(ProbesOf, whole)
    ensures processed' + Pick(orders[i + 1..], whole[i + 1..], IsProcessed) == Pick(orders, whole, IsProcessed)
    ensures manual' + Pick(orders[i + 1..], whole[i + 1..], IsManual) == Pick(orders, whole, IsManual)
    ensures forall j :: 0 <= j < i + 1 ==> States(orders)[j] == whole[j].after
    ensures forall j :: i + 1 <= j < |orders| ==> States(orders)[j] == start[j]
  {
    ghost var log, states := client.log, States(orders);
    var dest := RouteNth(orders, i, client, rows, step);
    processed' := if dest == Processed then processed + [orders[i]] else processed;
    manual' := if dest == Manual then manual + [orders[i]] else manual;
    TurnAdvances(orders, step, start, whole, i, log0, log, processed, manual, states,
                 client.log, processed', manual', States(orders));
  }

  /**
   * The loop of `check_order_url`, against any ghost step that agrees with
   * the router on every order.
   */
  method RouteEach(orders: seq<Order>, rows: seq<ServiceRow>, client: ActorClient, ghost step: Step, ghost k0: nat)
    returns (processed: seq<Order>, manual: seq<Order>)
    requires Distinct(orders) && k0 == |client.log|
    requires forall s, k {:trigger RouteOne(rows, s, client.oracle, k)} :: At(step, s, k) == RouteOne(rows, s, client.oracle, k)
    modifies set k | 0 <= k < |orders| :: orders[k], client
    ensures var rs := Run(step, ProbesOf, old(States(orders)), k0);
      && (forall j :: 0 <= j < |orders| ==> orders[j].State() == rs[j].after)
      && client.log == old(client.log) + Concat(ProbesOf, rs)
      && processed == Pick(orders, rs, IsProcessed)
      && manual == Pick(orders, rs, IsManual)
  {
    ghost var start := States(orders);
    ghost var whole := Run(step, ProbesOf, start, k0);
    ghost var log0 := client.log;
    processed := [];
    manual := [];
    var i := 0;
    while i < |orders|
      invariant 0 <= i <= |orders|
      invariant whole[i..] == RunFrom(step, ProbesOf, start, i, |client.log|)
      invariant client.log + Concat(ProbesOf, whole[i..]) == log0 + Concat(ProbesOf, whole)
      invariant processed + Pick(orders[i..], whole[i..], IsProcessed) == Pick(orders, whole, IsProcessed)
      invariant manual + Pick(orders[i..], whole[i..], IsManual) == Pick(orders, whole, IsManual)
      invariant forall j :: 0 <= j < i ==> States(orders)[j] == whole[j].after
      invariant forall j :: i <= j < |orders| ==> States(orders)[j] == start[j]
    {
      processed, manual := RouteTurn(orders, rows, client, i, processed, manual, step, start, whole, log0);
      i := i + 1;
    }
    assert whole[i..] == [] && orders[i..] == [];
  }

  /**
   * `check_order_url`: routes every order and returns the processed and the
   * manual lists.  The orders must be distinct records (as the scraper builds
   * them), so that routing one leaves the others as they were.
   */
  method CheckOrderUrl(orders: seq<Order>, rows: seq<ServiceRow>, client: ActorClient)
    returns (processed: seq<Order>, manual: seq<Order>)
    requires Distinct(orders)
    modifies set k | 0 <= k < |orders| :: orders[k], client
    ensures var rs := Run(RouteStep(rows, client.oracle), ProbesOf, old(States(orders)), |old(client.log)|);
      && (forall j :: 0 <= j < |orders| ==> orders[j].State() == rs[j].after)
      && client.log == old(client.log) + Concat(ProbesOf, rs)
      && processed == Pick(orders, rs, IsProcessed)
      && manual == Pick(orders, rs, IsManual)
  {
    ghost var start := States(orders);
    ghost var log0 := client.log;
    ghost var step := AbstractRouter(rows, client.oracle);
    processed, manual := RouteEach(orders, rows, client, step, |log0|);
    AgreesWithRouter(step, rows, client.oracle);
    RunFromCongruent(step, RouteStep(rows, client.oracle), ProbesOf, start, 0, |log0|);
  }
}
