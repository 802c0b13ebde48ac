/**
 * A scraped storefront order.  The scraper builds one record per order line;
 * the validators and the fulfillment step then update four of its fields in
 * place: `order_edit_link`, `validate_url`, `note` and `store_order_num`.
 * The Selenium checkbox (`check_element`) is not part of this model.
 */
module Orders {
  import opened Values

  /** The fields of an order record at one moment. */
  datatype OrderState = OrderState(
    marketOrderNum: string,
    username: string,
    serviceNum: string,
    quantity: string,
    link: string,
    editLink: Value,
    orderTime: string,
    serviceName: string,
    storeOrderNum: Value,
    note: string,
    validateUrl: int)

  /** `order_edit_link` before any validator replaced the link. */
  const NoEdit: Value := Int(-1)

  /** `store_order_num` before the fulfillment service answered. */
  const NoStoreOrder: Value := Dict(map["order" := Int(-1)])

  class Order {
    const marketOrderNum: string
    const username: string
    const serviceNum: string
    const quantity: string
    const link: string
    const orderTime: string
    const serviceName: string
    var editLink: Value
    var storeOrderNum: Value
    var note: string
    var validateUrl: int

    /** The record as the scraper appends it to `order_list`: nothing validated yet. */
    constructor (marketOrderNum: string, username: string, serviceNum: string, quantity: string,
                 link: string, orderTime: string, serviceName: string)
      ensures State() == OrderState(marketOrderNum, username, serviceNum, quantity, link,
                                    NoEdit, orderTime, serviceName, NoStoreOrder, "", -1)
    {
      this.marketOrderNum := marketOrderNum;
      this.username := username;
      this.serviceNum := serviceNum;
      this.quantity := quantity;
      this.link := link;
      this.orderTime := orderTime;
      this.serviceName := serviceName;
      editLink := NoEdit;
      storeOrderNum := NoStoreOrder;
      note := "";
      validateUrl := -1;
    }

    function State(): OrderState
      reads this
    {
      OrderState(marketOrderNum, username, serviceNum, quantity, link, editLink,
                 orderTime, serviceName, storeOrderNum, note, validateUrl)
    }
  }

  /** The states of a list of orders. */
  function States(orders: seq<Order>): (r: seq<OrderState>)
    reads set k | 0 <= k < |orders| :: orders[k]
    ensures |r| == |orders|
    ensures forall k :: 0 <= k < |orders| ==> r[k] == orders[k].State()
  {
    if |orders| == 0 then [] else [orders[0].State()] + States(orders[1..])
  }

  /** No order occurs twice in the list. */
  predicate Distinct(orders: seq<Order>) {
    forall j, k :: 0 <= j < k < |orders| ==> orders[j] != orders[k]
  }
}
