/**
 * The fulfillment step after routing: `process_order` submits every
 * validated order to the fulfillment service and records it in the order
 * sheet, and `add_manual_order` records the orders that need a person in
 * the manual-order sheet, skipping those the sheet already lists.  The
 * service and the sheets are not modelled: the service answers through an
 * oracle and a sheet is the list of rows appended to it.
 */
module Ledger {
  import opened Text
  import opened Values
  import opened Orders
  import opened Runs

  /** Status column of a submitted order (`배송중`, shipping). */
  const Shipping: string := "배송중"

  /** Status column of a manual order (`처리필요`, needs handling). */
  const NeedsAction: string := "처리필요"

  function OptSeq<T>(o: Option<T>): (r: seq<T>)
    ensures o.Some? ==> r == [o.value]
    ensures o.None? ==> r == []
  {
    if o.Some? then [o.value] else []
  }

  /** The link `process_order` submits: the validator's edit link unless it is still -1. */
  function SubmissionLink(editLink: Value, link: string): (v: Value)
    ensures v != NoEdit
    ensures editLink != NoEdit ==> v == editLink
    ensures editLink == NoEdit ==> v == Str(link)
  {
    if editLink != NoEdit then editLink else Str(link)
  }

  /**
   * The nine columns both sheets start with; the second is
   * `str(store_order_num.get('order'))`.
   */
  function LeadColumns(s: OrderState, store: map<string, Value>): seq<string> {
    [s.marketOrderNum, PyStr(Get(store, "order")), s.username, s.serviceNum, s.link,
     PyStr(s.editLink), s.quantity, s.serviceName, s.orderTime]
  }

  /**
   * `add_order_sheet`'s row: the nine columns and the status `배송중`.
   * `None` where `store_order_num` is not a dict (`.get` raises and the
   * function's handler swallows it, so nothing is appended).
   */
  function OrderSheetRow(s: OrderState): (r: Option<seq<string>>)
    ensures r.Some? <==> s.storeOrderNum.Dict?
    ensures r.Some? ==> |r.value| == 10 && r.value[0] == s.marketOrderNum
                        && r.value[1] == PyStr(Get(s.storeOrderNum.fields, "order"))
                        && r.value[5] == PyStr(s.editLink) && r.value[9] == Shipping
  {
    if s.storeOrderNum.Dict? then Some(LeadColumns(s, s.storeOrderNum.fields) + [Shipping]) else None
  }

  /**
   * `add_manual_order_sheet`'s row: the nine columns, the status `처리필요`
   * and the note; its length check never fails.
   */
  function ManualSheetRow(s: OrderState): (r: Option<seq<string>>)
    ensures r.Some? <==> s.storeOrderNum.Dict?
    ensures r.Some? ==> |r.value| == 11 && r.value[0] == s.marketOrderNum
                        && r.value[9] == NeedsAction && r.value[10] == s.note
  {
    if s.storeOrderNum.Dict? then Some(LeadColumns(s, s.storeOrderNum.fields) + [NeedsAction, s.note]) else None
  }

  /** The two sheets agree on the first nine columns and differ in the status. */
  lemma RowsShareLeadColumns(s: OrderState)
    requires s.storeOrderNum.Dict?
    ensures OrderSheetRow(s).value[..9] == ManualSheetRow(s).value[..9]
    ensures OrderSheetRow(s).value[9] != ManualSheetRow(s).value[9]
  {
    var lead := LeadColumns(s, s.storeOrderNum.fields);
    assert OrderSheetRow(s).value[..9] == lead;
    assert ManualSheetRow(s).value[..9] == lead;
  }

  /** An order that never reached the service is listed with store number `-1`. */
  lemma UnsubmittedOrderRow(s: OrderState)
    requires s.storeOrderNum == NoStoreOrder
    ensures ManualSheetRow(s).Some? && ManualSheetRow(s).value[1] == "-1"
  {
    assert DigitChar(1) == '1';
    assert IntToStr(-1) == "-1";
  }

  /** A spreadsheet tab: the records below its header, in order. */
  class Worksheet {
    var rows: seq<seq<string>>

    constructor (rows: seq<seq<string>>)
      ensures this.rows == rows
    {
      this.rows := rows;
    }

    /** `append_row`. */
    method AppendRow(row: seq<string>)
      modifies this
      ensures rows == old(rows) + [row]
    {
      rows := rows + [row];
    }
  }

  /** `StoreAPI.create_order`'s arguments. */
  datatype CreateOrder = CreateOrder(service: string, link: Value, quantity: int)

  /**
   * The service's decoded JSON reply to the `n`-th submission, or `None`
   * where `create_order` raises (an HTTP error or a body that is not JSON).
   */
  type StoreOracle = (nat, CreateOrder) -> Option<Value>

  /** The fulfillment service client; `log` lists the submissions made so far. */
  class StoreClient {
    const oracle: StoreOracle
    var log: seq<CreateOrder>

    constructor (oracle: StoreOracle)
      ensures this.oracle == oracle && log == []
    {
      this.oracle := oracle;
      log := [];
    }

    method Create(req: CreateOrder) returns (reply: Option<Value>)
      modifies this`log
      ensures log == old(log) + [req]
      ensures reply == oracle(|old(log)|, req)
    {
      reply := oracle(|log|, req);
      log := log + [req];
    }
  }

  /**
   * What one turn of `process_order`'s loop does with an order: the state
   * it leaves, the submission it makes, the row it appends, whether it
   * joins the manual list and whether it counts in `cnt`.
   */
  datatype Placement = Placement(after: OrderState, request: Option<CreateOrder>,
                                 row: Option<seq<string>>, manual: bool, submitted: bool)

  /**
   * One order of `process_order`.  An order not validated (`validate_url`
   * other than 1) joins the manual list.  A validated order whose quantity
   * `int()` rejects, or whose submission raises, is skipped by the loop's
   * handler.  Otherwise the reply becomes `store_order_num`, the order
   * counts, and `add_order_sheet` appends its row if it can build one.
   */
  function PlaceOne(s: OrderState, oracle: StoreOracle, k: nat): (p: Placement)
    ensures p.manual <==> s.validateUrl != 1
    ensures p.request.Some? <==> s.validateUrl == 1 && ParseInt(s.quantity).Some?
    ensures p.request.Some? ==> p.request.value.link == SubmissionLink(s.editLink, s.link)
                                && p.request.value.service == s.serviceNum
                                && p.request.value.quantity == ParseInt(s.quantity).value
    ensures p.submitted <==> p.request.Some? && oracle(k, p.request.value).Some?
    ensures p.submitted ==> p.after == s.(storeOrderNum := oracle(k, p.request.value).value)
                            && p.row == OrderSheetRow(p.after)
    ensures !p.submitted ==> p.after == s && p.row.None?
  {
    if s.validateUrl != 1 then Placement(s, None, None, true, false)
    else match ParseInt(s.quantity)
      case None => Placement(s, None, None, false, false)
      case Some(q) =>
        var req := CreateOrder(s.serviceNum, SubmissionLink(s.editLink, s.link), q);
        match oracle(k, req)
        case None => Placement(s, Some(req), None, false, false)
        case Some(reply) =>
          var t := s.(storeOrderNum := reply);
          Placement(t, Some(req), OrderSheetRow(t), false, true)
  }

  /** The submissions a placement made. */
  function Calls(p: Placement): seq<CreateOrder> {
    OptSeq(p.request)
  }

  /** The order-sheet rows a placement appended. */
  function RowsOf(p: Placement): seq<seq<string>> {
    OptSeq(p.row)
  }

  predicate Accepted(p: Placement) {
    p.submitted
  }

  predicate IsManual(p: Placement) {
    p.manual
  }

  /** A placement function: what to do with an order given the submissions made before it. */
  type PlaceStep = (OrderState, nat) -> Placement

  /** `process_order`'s treatment of one order, against the service `oracle`. */
  function Placer(oracle: StoreOracle): (f: PlaceStep)
    ensures forall s, k :: At(f, s, k) == PlaceOne(s, oracle, k)
  {
    (s: OrderState, k: nat) => PlaceOne(s, oracle, k)
  }

  /** A step known to agree with `Placer(oracle)` only where `PlaceOne` is mentioned. */
  lemma AbstractPlacer(oracle: StoreOracle) returns (f: PlaceStep)
    ensures forall s, k {:trigger PlaceOne(s, oracle, k)} :: At(f, s, k) == PlaceOne(s, oracle, k)
  {
    f := Placer(oracle);
  }

  lemma AgreesWithPlacer(f: PlaceStep, oracle: StoreOracle)
    requires forall s, k {:trigger PlaceOne(s, oracle, k)} :: At(f, s, k) == PlaceOne(s, oracle, k)
    ensures forall s, k :: At(f, s, k) == At(Placer(oracle), s, k)
  {
    forall s, k ensures At(f, s, k) == At(Placer(oracle), s, k) {
      assert At(f, s, k) == PlaceOne(s, oracle, k);
    }
  }

  /**
   * In a run of `process_order`, order `j` is placed on its own state,
   * numbered after the submissions of the orders before it.
   */
  lemma PlacedOnItsOwn(oracle: StoreOracle, ss: seq<OrderState>, k: nat, j: nat)
    requires j < |ss|
    ensures var ps := Run(Placer(oracle), Calls, ss, k);
      ps[j] == PlaceOne(ss[j], oracle, k + |Concat(Calls, ps[..j])|)
  {
    RunPointwise(Placer(oracle), Calls, ss, k, j);
  }

  /**
   * The manual list of `process_order` is exactly the orders whose
   * `validate_url` is not 1, in their order, whatever the service answers;
   * those orders are left as they were.
   */
  lemma {:induction false} ManualListIsUnvalidated(orders: seq<Order>, oracle: StoreOracle, ss: seq<OrderState>, k: nat)
    requires |orders| == |ss|
    ensures var ps := Run(Placer(oracle), Calls, ss, k);
      var manual := Pick(orders, ps, IsManual);
      && (forall j :: 0 <= j < |ss| && ss[j].validateUrl != 1 ==> orders[j] in manual && ps[j].after == ss[j])
      && (forall o :: o in manual ==> exists j :: 0 <= j < |ss| && orders[j] == o && ss[j].validateUrl != 1)
  {
    var ps := Run(Placer(oracle), Calls, ss, k);
    forall j | 0 <= j < |ss|
      ensures ps[j].manual <==> ss[j].validateUrl != 1
      ensures ss[j].validateUrl != 1 ==> ps[j].after == ss[j]
    {
      PlacedOnItsOwn(oracle, ss, k, j);
    }
    PickMembers(orders, ps, IsManual);
  }

  /**
   * Every submission `process_order` makes is that of a validated order
   * whose quantity parses, with the link the validators chose; -1 is never
   * submitted as a link.
   */
  lemma SubmissionsAreValidated(oracle: StoreOracle, ss: seq<OrderState>, k: nat, x: CreateOrder)
    requires x in Concat(Calls, Run(Placer(oracle), Calls, ss, k))
    ensures x.link != NoEdit
    ensures exists j :: 0 <= j < |ss| && ss[j].validateUrl == 1 && ParseInt(ss[j].quantity) == Some(x.quantity)
                        && x == CreateOrder(ss[j].serviceNum, SubmissionLink(ss[j].editLink, ss[j].link), x.quantity)
  {
    var ps := Run(Placer(oracle), Calls, ss, k);
    ConcatMember(Calls, ps, x);
    var j :| 0 <= j < |ps| && x in Calls(ps[j]);
    PlacedOnItsOwn(oracle, ss, k, j);
  }

  /** `process_order` changes nothing of an order but `store_order_num`. */
  lemma OnlyStoreNumberChanges(oracle: StoreOracle, ss: seq<OrderState>, k: nat, j: nat)
    requires j < |ss|
    ensures var p := Run(Placer(oracle), Calls, ss, k)[j];
      p.after == ss[j].(storeOrderNum := p.after.storeOrderNum)
  {
    PlacedOnItsOwn(oracle, ss, k, j);
  }

  /** The flag `process_order` returns is set exactly when some order was accepted. */
  lemma {:induction false} PlacedFlag(ps: seq<Placement>)
    ensures Count(Accepted, ps) > 0 <==> exists j :: 0 <= j < |ps| && ps[j].submitted
    decreases |ps|
  {
    if |ps| > 0 {
      PlacedFlag(ps[1..]);
      assert forall j :: 1 <= j < |ps| ==> ps[j] == ps[1..][j - 1];
      if exists j :: 0 <= j < |ps[1..]| && ps[1..][j].submitted {
        var j :| 0 <= j < |ps[1..]| && ps[1..][j].submitted;
        assert ps[j + 1].submitted;
      }
    }
  }

  /**
   * A reply that is a dict but no order (the service's `{"error": ...}`)
   * still counts as accepted and is written to the order sheet with the
   * store number `None`.
   */
  lemma ErrorReplyCounts(s: OrderState, oracle: StoreOracle, k: nat, message: string)
    requires s.validateUrl == 1 && ParseInt(s.quantity).Some?
    requires oracle(k, CreateOrder(s.serviceNum, SubmissionLink(s.editLink, s.link), ParseInt(s.quantity).value))
             == Some(Dict(map["error" := Str(message)]))
    ensures var p := PlaceOne(s, oracle, k);
      p.submitted && p.row.Some? && p.row.value[1] == "None" && p.row.value[9] == Shipping
  {
    var d := map["error" := Str(message)];
    assert "order" !in d;
  }

  /** `add_order_sheet`: appends the order's row when it can be built. */
  method AddOrderSheet(sheet: Worksheet, order: Order)
    modifies sheet
    ensures sheet.rows == old(sheet.rows) + OptSeq(OrderSheetRow(order.State()))
  {
    var row := OrderSheetRow(order.State());
    if row.Some? {
      sheet.AppendRow(row.value);
    }
  }

  /** One turn of `process_order`'s loop body. */
  method PlaceOrder(order: Order, store: StoreClient, sheet: Worksheet) returns (manual: bool, submitted: bool)
    modifies order, store, sheet
    ensures var p := PlaceOne(old(order.State()), store.oracle, |old(store.log)|);
      && order.State() == p.after
      && store.log == old(store.log) + Calls(p)
      && sheet.rows == old(sheet.rows) + RowsOf(p)
      && manual == p.manual && submitted == p.submitted
  {
    manual, submitted := false, false;
    if order.validateUrl == 1 {
      var link := SubmissionLink(order.editLink, order.link);
      var quantity := ParseInt(order.quantity);
      if quantity.None? {
        return;  // `int()` raises before the call; the loop's handler moves on
      }
      var reply := store.Create(CreateOrder(order.serviceNum, link, quantity.value));
      if reply.None? {
        return;  // `create_order` re-raises; the loop's handler moves on
      }
      order.storeOrderNum := reply.value;
      submitted := true;
      AddOrderSheet(sheet, order);
    } else {
      manual := true;
    }
  }

  /** `PlaceOrder` seen through a ghost step that agrees with `PlaceOne`. */
  method PlaceStepOrder(order: Order, store: StoreClient, sheet: Worksheet, ghost step: PlaceStep)
    returns (manual: bool, submitted: bool)
    requires forall s, k {:trigger PlaceOne(s, store.oracle, k)} :: At(step, s, k) == PlaceOne(s, store.oracle, k)
    modifies order, store, sheet
    ensures var p := At(step, old(order.State()), |old(store.log)|);
      && order.State() == p.after
      && store.log == old(store.log) + Calls(p)
      && sheet.rows == old(sheet.rows) + RowsOf(p)
      && manual == p.manual && submitted == p.submitted
  {
    manual, submitted := PlaceOrder(order, store, sheet);
  }

  /** Order `i` of the list is placed; the other orders are left as they were. */
  method PlaceNth(orders: seq<Order>, i: nat, store: StoreClient, sheet: Worksheet, ghost step: PlaceStep)
    returns (manual: bool, submitted: bool)
    requires i < |orders| && Distinct(orders)
    requires forall s, k {:trigger PlaceOne(s, store.oracle, k)} :: At(step, s, k) == PlaceOne(s, store.oracle, k)
    modifies orders[i], store, sheet
    ensures var p := At(step, old(orders[i].State()), |old(store.log)|);
      && States(orders) == old(States(orders))[i := p.after]
      && store.log == old(store.log) + Calls(p)
      && sheet.rows == old(sheet.rows) + RowsOf(p)
      && manual == p.manual && submitted == p.submitted
  {
    ghost var before := States(orders);
    manual, submitted := PlaceStepOrder(orders[i], store, sheet, step);
    ghost var after := States(orders);
    forall j | 0 <= j < |orders|
      ensures after[j] == before[i := orders[i].State()][j]
    {
      if j != i {
        assert orders[j] != orders[i];
      }
    }
    assert after == before[i := orders[i].State()];
  }

  /**
   * One turn of `process_order`'s loop on values: with the orders before
   * `i` placed as the run `whole` says, placing order `i` moves every
   * running total past it.
   */
  lemma TurnAdvances(orders: seq<Order>, step: PlaceStep, start: seq<OrderState>, whole: seq<Placement>, i: nat,
                     log0: seq<CreateOrder>, rows0: seq<seq<string>>,
                     log: seq<CreateOrder>, rows: seq<seq<string>>, cnt: nat, manual: seq<Order>, states: seq<OrderState>,
                     log': seq<CreateOrder>, rows': seq<seq<string>>, cnt': nat, manual': seq<Order>, states': seq<OrderState>)
    requires i < |orders| && |start| == |orders| == |whole| == |states|
    requires whole[i..] == RunFrom(step, Calls, start, i, |log|)
    requires log + Concat(Calls, whole[i..]) == log0 + Concat(Calls, whole)
    requires rows + Concat(RowsOf, whole[i..]) == rows0 + Concat(RowsOf, whole)
    requires cnt + Count(Accepted, whole[i..]) == Count(Accepted, whole)
    requires manual + Pick(orders[i..], whole[i..], IsManual) == Pick(orders, whole, IsManual)
    requires forall j :: 0 <= j < i ==> states[j] == whole[j].after
    requires forall j :: i <= j < |orders| ==> states[j] == start[j]
    requires var p := At(step, states[i], |log|);
      && log' == log + Calls(p) && rows' == rows + RowsOf(p)
      && cnt' == (if p.submitted then cnt + 1 else cnt)
      && manual' == (if p.manual then manual + [orders[i]] else manual)
      && states' == states[i := p.after]
    ensures whole[i + 1..] == RunFrom(step, Calls, start, i + 1, |log'|)
    ensures log' + Concat(Calls, whole[i + 1..]) == log0 + Concat(Calls, whole)
    ensures rows' + Concat(RowsOf, whole[i + 1..]) == rows0 + Concat(RowsOf, whole)
    ensures cnt' + Count(Accepted, whole[i + 1..]) == Count(Accepted, whole)
    ensures manual' + Pick(orders[i + 1..], whole[i + 1..], IsManual) == Pick(orders, whole, IsManual)
    ensures forall j :: 0 <= j < i + 1 ==> states'[j] == whole[j].after
    ensures forall j :: i + 1 <= j < |orders| ==> states'[j] == start[j]
  {
    assert states[i] == start[i];
    RunFromStep(step, Calls, start, i, |log|, whole);
    ConcatStep(Calls, whole, i, log);
    ConcatStep(RowsOf, whole, i, rows);
    CountStep(Accepted, whole, i);
    PickStep(orders, whole, IsManual, i, manual);
  }

  /** One turn of `process_order`'s loop on the orders, the service and the sheet. */
  method PlaceTurn(sheet: Worksheet, orders: seq<Order>, store: StoreClient, i: nat, cnt: nat, manual: seq<Order>,
                   ghost step: PlaceStep, ghost start: seq<OrderState>, ghost whole: seq<Placement>,
                   ghost log0: seq<CreateOrder>, ghost rows0: seq<seq<string>>)
    returns (cnt': nat, manual': seq<Order>)
    requires Distinct(orders) && i < |orders| && |start| == |orders| == |whole|
    requires forall s, k {:trigger PlaceOne(s, store.oracle, k)} :: At(step, s, k) == PlaceOne(s, store.oracle, k)
    requires whole[i..] == RunFrom(step, Calls, start, i, |store.log|)
    requires store.log + Concat(Calls, whole[i..]) == log0 + Concat(Calls, whole)
    requires sheet.rows + Concat(RowsOf, whole[i..]) == rows0 + Concat(RowsOf, whole)
    requires cnt + Count(Accepted, whole[i..]) == Count(Accepted, whole)
    requires manual + Pick(orders[i..], whole[i..], IsManual) == Pick(orders, whole, IsManual)
    requires forall j :: 0 <= j < i ==> States(orders)[j] == whole[j].after
    requires forall j :: i <= j < |orders| ==> States(orders)[j] == start[j]
    modifies orders[i], store, sheet
    ensures whole[i + 1..] == RunFrom(step, Calls, start, i + 1, |store.log|)
    ensures store.log + Concat(Calls, whole[i + 1..]) == log0 + Concat(Calls, whole)
    ensures sheet.rows + Concat(RowsOf, whole[i + 1..]) == rows0 + Concat(RowsOf, whole)
    ensures cnt' + Count(Accepted, whole[i + 1..]) == Count(Accepted, whole)
    ensures manual' + Pick(orders[i + 1..], whole[i + 1..], IsManual) == Pick(orders, whole, IsManual)
    ensures forall j :: 0 <= j < i + 1 ==> States(orders)[j] == whole[j].after
    ensures forall j :: i + 1 <= j < |orders| ==> States(orders)[j] == start[j]
  {
    ghost var log, rows, states := store.log, sheet.rows, States(orders);
    var isManual, submitted := PlaceNth(orders, i, store, sheet, step);
    cnt' := if submitted then cnt + 1 else cnt;
    manual' := if isManual then manual + [orders[i]] else manual;
    TurnAdvances(orders, step, start, whole, i, log0, rows0, log, rows, cnt, manual, states,
                 store.log, sheet.rows, cnt', manual', States(orders));
  }

  /** The loop of `process_order`, against any ghost step that agrees with `PlaceOne`. */
  method PlaceEach(sheet: Worksheet, orders: seq<Order>, store: StoreClient, ghost step: PlaceStep, ghost k0: nat)
    returns (cnt: nat, manual: seq<Order>)
    requires Distinct(orders) && k0 == |store.log|
    requires forall s, k {:trigger PlaceOne(s, store.oracle, k)} :: At(step, s, k) == PlaceOne(s, store.oracle, k)
    modifies set k | 0 <= k < |orders| :: orders[k], store, sheet
    ensures var ps := Run(step, Calls, old(States(orders)), k0);
      && (forall j :: 0 <= j < |orders| ==> orders[j].State() == ps[j].after)
      && store.log == old(store.log) + Concat(Calls, ps)
      && sheet.rows == old(sheet.rows) + Concat(RowsOf, ps)
      && cnt == Count(Accepted, ps)
      && manual == Pick(orders, ps, IsManual)
  {
    ghost var start := States(orders);
    ghost var whole := Run(step, Calls, start, k0);
    ghost var log0 := store.log;
    ghost var rows0 := sheet.rows;
    cnt := 0;
    manual := [];
    var i := 0;
    while i < |orders|
      invariant 0 <= i <= |orders|
      invariant whole[i..] == RunFrom(step, Calls, start, i, |store.log|)
      invariant store.log + Concat(Calls, whole[i..]) == log0 + Concat(Calls, whole)
      invariant sheet.rows + Concat(RowsOf, whole[i..]) == rows0 + Concat(RowsOf, whole)
      invariant cnt + Count(Accepted, whole[i..]) == Count(Accepted, whole)
      invariant manual + Pick(orders[i..], whole[i..], IsManual) == Pick(orders, whole, IsManual)
      invariant forall j :: 0 <= j < i ==> States(orders)[j] == whole[j].after
      invariant forall j :: i <= j < |orders| ==> States(orders)[j] == start[j]
    {
      cnt, manual := PlaceTurn(sheet, orders, store, i, cnt, manual, step, start, whole, log0, rows0);
      i := i + 1;
    }
    assert whole[i..] == [] && orders[i..] == [];
  }

  /**
   * `process_order`: submits the orders in turn and returns whether any
   * was accepted (`cnt > 0`) and the manual list.  The orders must be
   * distinct records, as the router hands them over.
   */
  method ProcessOrders(sheet: Worksheet, orders: seq<Order>, store: StoreClient)
    returns (placed: bool, manual: seq<Order>)
    requires Distinct(orders)
    modifies set k | 0 <= k < |orders| :: orders[k], store, sheet
    ensures var ps := Run(Placer(store.oracle), Calls, old(States(orders)), |old(store.log)|);
      && (forall j :: 0 <= j < |orders| ==> orders[j].State() == ps[j].after)
      && store.log == old(store.log) + Concat(Calls, ps)
      && sheet.rows == old(sheet.rows) + Concat(RowsOf, ps)
      && placed == (Count(Accepted, ps) > 0)
      && manual == Pick(orders, ps, IsManual)
  {
    ghost var start := States(orders);
    ghost var log0 := store.log;
    ghost var step := AbstractPlacer(store.oracle);
    var cnt;
    cnt, manual := PlaceEach(sheet, orders, store, step, |log0|);
    placed := cnt > 0;
    AgreesWithPlacer(step, store.oracle);
    RunFromCongruent(step, Placer(store.oracle), Calls, start, 0, |log0|);
  }

  /** The market order numbers a sheet lists (its first column). */
  function MarketNumbers(rows: seq<seq<string>>): set<string> {
    set r | r in rows && |r| > 0 :: r[0]
  }

  /**
   * The row `add_manual_order` appends for one order: none when the
   * snapshot already lists its market order number.
   */
  function ManualRow(snapshot: set<string>, s: OrderState): seq<seq<string>> {
    if s.marketOrderNum in snapshot then [] else OptSeq(ManualSheetRow(s))
  }

  /** The rows `add_manual_order` appends for a list of orders, in order. */
  function ManualRows(snapshot: set<string>, ss: seq<OrderState>): seq<seq<string>> {
    if |ss| == 0 then [] else ManualRow(snapshot, ss[0]) + ManualRows(snapshot, ss[1..])
  }

  /** No appended row repeats a number of the snapshot; each is a `처리필요` row of 11 columns. */
  lemma {:induction false} ManualRowsAreFresh(snapshot: set<string>, ss: seq<OrderState>)
    ensures forall r :: r in ManualRows(snapshot, ss) ==> |r| == 11 && r[0] !in snapshot && r[9] == NeedsAction
    decreases |ss|
  {
    if |ss| > 0 {
      ManualRowsAreFresh(snapshot, ss[1..]);
    }
  }

  /**
   * The snapshot is taken once, before the loop: two orders of one batch
   * with the same new market order number are both appended.
   */
  lemma DuplicatesInBatchAppended(snapshot: set<string>, s: OrderState, t: OrderState)
    requires s.marketOrderNum == t.marketOrderNum && s.marketOrderNum !in snapshot
    requires s.storeOrderNum.Dict? && t.storeOrderNum.Dict?
    ensures |ManualRows(snapshot, [s, t])| == 2
  {
    assert [s, t][1..] == [t];
    assert [t][1..] == [];
    assert ManualRows(snapshot, [t]) == ManualRow(snapshot, t);
    assert ManualRows(snapshot, [s, t]) == ManualRow(snapshot, s) + ManualRow(snapshot, t);
  }

  /** An order's row, if appended, is among the rows of its batch. */
  lemma {:induction false} ManualRowAppended(snapshot: set<string>, ss: seq<OrderState>, j: nat)
    requires j < |ss|
    ensures forall r :: r in ManualRow(snapshot, ss[j]) ==> r in ManualRows(snapshot, ss)
    decreases j
  {
    if j > 0 {
      ManualRowAppended(snapshot, ss[1..], j - 1);
    }
  }

  /** A batch every order of which is listed, or cannot make a row, appends nothing. */
  lemma {:induction false} NothingToAppend(snapshot: set<string>, ss: seq<OrderState>)
    requires forall j :: 0 <= j < |ss| ==> ss[j].marketOrderNum in snapshot || !ss[j].storeOrderNum.Dict?
    ensures ManualRows(snapshot, ss) == []
    decreases |ss|
  {
    if |ss| > 0 {
      assert forall j :: 1 <= j < |ss| ==> ss[1..][j - 1] == ss[j];
      NothingToAppend(snapshot, ss[1..]);
    }
  }

  /**
   * Running `add_manual_order` again on the same orders, with the sheet it
   * left, appends nothing: the dedupe makes the step idempotent.
   */
  lemma RerunAppendsNothing(rows: seq<seq<string>>, ss: seq<OrderState>)
    ensures var rows' := rows + ManualRows(MarketNumbers(rows), ss);
      ManualRows(MarketNumbers(rows'), ss) == []
  {
    var snapshot := MarketNumbers(rows);
    var rows' := rows + ManualRows(snapshot, ss);
    forall j | 0 <= j < |ss|
      ensures ss[j].marketOrderNum in MarketNumbers(rows') || !ss[j].storeOrderNum.Dict?
    {
      var s := ss[j];
      if s.storeOrderNum.Dict? {
        if s.marketOrderNum in snapshot {
          var r :| r in rows && |r| > 0 && r[0] == s.marketOrderNum;
          assert r in rows';
        } else {
          var r := ManualSheetRow(s).value;
          assert r in ManualRow(snapshot, s);
          ManualRowAppended(snapshot, ss, j);
          assert r in rows';
        }
      }
    }
    NothingToAppend(MarketNumbers(rows'), ss);
  }

  /** One turn of `add_manual_order`'s loop. */
  lemma ManualRowsStep(snapshot: set<string>, ss: seq<OrderState>, i: nat, out: seq<seq<string>>)
    requires i < |ss|
    ensures out + ManualRows(snapshot, ss[i..]) == (out + ManualRow(snapshot, ss[i])) + ManualRows(snapshot, ss[i + 1..])
  {
    assert ss[i..][0] == ss[i] && ss[i..][1..] == ss[i + 1..];
  }

  /** `add_manual_order_sheet`: appends the order's row when it can be built. */
  method AddManualOrderSheet(sheet: Worksheet, order: Order)
    modifies sheet
    ensures sheet.rows == old(sheet.rows) + OptSeq(ManualSheetRow(order.State()))
  {
    var row := ManualSheetRow(order.State());
    if row.Some? {
      sheet.AppendRow(row.value);
    }
  }

  /** One turn of `add_manual_order`'s loop: the order's row unless the snapshot lists it. */
  method AddUnlisted(sheet: Worksheet, order: Order, snapshot: set<string>)
    modifies sheet
    ensures sheet.rows == old(sheet.rows) + ManualRow(snapshot, order.State())
  {
    if order.marketOrderNum !in snapshot {
      AddManualOrderSheet(sheet, order);
    }
  }

  /**
   * `add_manual_order`: reads the sheet's market order numbers once, then
   * appends a manual row for every order the snapshot does not list.
   */
  method AddManualOrder(sheet: Worksheet, orders: seq<Order>)
    modifies sheet
    ensures sheet.rows == old(sheet.rows) + ManualRows(MarketNumbers(old(sheet.rows)), old(States(orders)))
  {
    var snapshot := MarketNumbers(sheet.rows);
    ghost var rows0 := sheet.rows;
    ghost var ss := States(orders);
    var i := 0;
    while i < |orders|
      invariant 0 <= i <= |orders|
      invariant forall j :: 0 <= j < |orders| ==> orders[j].State() == ss[j]
      invariant sheet.rows + ManualRows(snapshot, ss[i..]) == rows0 + ManualRows(snapshot, ss)
    {
      ManualRowsStep(snapshot, ss, i, sheet.rows);
      AddUnlisted(sheet, orders[i], snapshot);
      i := i + 1;
    }
    assert ss[i..] == [];
  }
}
