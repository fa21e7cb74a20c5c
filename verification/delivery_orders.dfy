/**
 * The delivery-order collection: one document per courier consignment, with
 * the courier service drawn from a fixed set, an append-only event log, and
 * two unique indexes (fulfillment id; courier service with consignment id).
 */
module DeliveryOrders {
  import opened Wrappers

  datatype CourierService = Pathao | Redx | Steadfast | Ecourier | Internal

  /** The string each service is stored as. */
  function ServiceName(c: CourierService): string
  {
    match c
    case Pathao => "PATHAO"
    case Redx => "REDX"
    case Steadfast => "STEADFAST"
    case Ecourier => "ECOURIER"
    case Internal => "INTERNAL"
  }

  /** The schema's enum check: the service a stored string names, if any. */
  function ParseService(s: string): (r: Option<CourierService>)
    ensures r.Some? ==> ServiceName(r.value) == s
    ensures forall c :: ServiceName(c) == s ==> r == Some(c)
  {
    if s == "PATHAO" then Some(Pathao)
    else if s == "REDX" then Some(Redx)
    else if s == "STEADFAST" then Some(Steadfast)
    else if s == "ECOURIER" then Some(Ecourier)
    else if s == "INTERNAL" then Some(Internal)
    else None
  }

  /** A tracking event; times are abstract instants. */
  datatype Event = Event(happenedAt: int, status: string, description: Option<string>)

  datatype DeliveryOrder = DeliveryOrder(
    storeId: int,
    shopifyStoreUrl: string,
    courierService: CourierService,
    orderId: string,
    orderName: string,
    customerId: string,
    consignmentId: string,
    fulfillmentId: string,
    events: seq<Event>,
    createdAt: int)

  /**
   * The schema's required-field checks: a required string may not be empty,
   * in the order and in each of its events.
   */
  predicate WellFormed(o: DeliveryOrder)
  {
    && o.shopifyStoreUrl != "" && o.orderId != "" && o.orderName != "" && o.customerId != ""
    && o.consignmentId != "" && o.fulfillmentId != ""
    && forall i :: 0 <= i < |o.events| ==> o.events[i].status != ""
  }

  /** Two orders collide on one of the unique indexes. */
  predicate Collide(a: DeliveryOrder, b: DeliveryOrder)
  {
    a.fulfillmentId == b.fulfillmentId
    || (a.courierService == b.courierService && a.consignmentId == b.consignmentId)
  }

  /** The collection invariant: well-formed documents, no two colliding. */
  predicate Valid(orders: seq<DeliveryOrder>)
  {
    && (forall i :: 0 <= i < |orders| ==> WellFormed(orders[i]))
    && (forall i, j :: 0 <= i < j < |orders| ==> !Collide(orders[i], orders[j]))
  }

  datatype InsertError = ValidationFailed | DuplicateKey

  /**
   * Saving a new document: the schema validation runs first, then the
   * unique indexes refuse a duplicate key.
   */
  function Insert(orders: seq<DeliveryOrder>, o: DeliveryOrder): (r: Result<seq<DeliveryOrder>, InsertError>)
    ensures r == Err(ValidationFailed) <==> !WellFormed(o)
    ensures r == Err(DuplicateKey) <==> WellFormed(o) && exists i :: 0 <= i < |orders| && Collide(orders[i], o)
    ensures r.Ok? ==> r.value == orders + [o]
    ensures Valid(orders) && r.Ok? ==> Valid(r.value)
  {
    if !WellFormed(o) then Err(ValidationFailed)
    else if exists i :: 0 <= i < |orders| && Collide(orders[i], o) then Err(DuplicateKey)
    else
      var s := orders + [o];
      assert forall i, j :: 0 <= i < j < |s| ==> !Collide(s[i], s[j]) || j < |orders|;
      Ok(s)
  }

  /** A new order as submitted: the service as a string, events and creation time optional. */
  datatype NewOrder = NewOrder(
    storeId: int, shopifyStoreUrl: string, courierService: string, orderId: string,
    orderName: string, customerId: string, consignmentId: string, fulfillmentId: string,
    events: Option<seq<Event>>, createdAt: Option<int>)

  /**
   * Creating an order: the service must be one of the enum's strings, the
   * events default to none and the creation time to `now`.
   */
  function Create(orders: seq<DeliveryOrder>, n: NewOrder, now: int): (r: Result<seq<DeliveryOrder>, InsertError>)
    ensures ParseService(n.courierService).None? ==> r == Err(ValidationFailed)
    ensures r.Ok? ==> |r.value| == |orders| + 1 && r.value[..|orders|] == orders
    ensures r.Ok? ==> ServiceName(r.value[|orders|].courierService) == n.courierService
    ensures r.Ok? && n.events.None? ==> r.value[|orders|].events == []
    ensures r.Ok? && n.createdAt.None? ==> r.value[|orders|].createdAt == now
    ensures Valid(orders) && r.Ok? ==> Valid(r.value)
  {
    match ParseService(n.courierService)
    case None => Err(ValidationFailed)
    case Some(c) =>
      Insert(orders, DeliveryOrder(
        n.storeId, n.shopifyStoreUrl, c, n.orderId, n.orderName, n.customerId,
        n.consignmentId, n.fulfillmentId, GetOr(n.events, []), GetOr(n.createdAt, now)))
  }

  /**
   * The order id is indexed but not unique, and one consignment id may be
   * used by different couriers: both orders below fit in a valid collection.
   */
  lemma SharedIdsAllowed()
    ensures var a := DeliveryOrder(1, "shop", Internal, "O1", "#1001", "C1", "X9", "F1", [], 0);
            var b := DeliveryOrder(1, "shop", Pathao, "O1", "#1001", "C1", "X9", "F2", [], 0);
            Valid([a, b]) && a.orderId == b.orderId && a.consignmentId == b.consignmentId
  {
  }
}
