/**
 * Order locations: how an order is to be delivered, Local (by the store's own
 * delivery workforce) or Courier, stored as one record per order id. Models
 * the `createOrderLocation` decision and upsert and the
 * `getOrderLocationByOrderId` lookup.
 */
module OrderLocations {
  import opened Wrappers
  import opened OrderLocationValidation
  import JsValues

  /** The delivery options; their wire codes are 1 and 2. */
  datatype DeliveryOption = Local | Courier

  function OptionCode(d: DeliveryOption): int
  {
    match d
    case Local => 1
    case Courier => 2
  }

  function OptionOfCode(n: int): (r: Option<DeliveryOption>)
    ensures r.Some? <==> n == 1 || n == 2
    ensures r.Some? ==> OptionCode(r.value) == n
    ensures forall d :: OptionCode(d) == n ==> r == Some(d)
  {
    if n == 1 then Some(Local) else if n == 2 then Some(Courier) else None
  }

  /** A stored order-location document. */
  datatype OrderLocation = OrderLocation(
    orderId: string, deliveryOption: int, storeId: Option<int>, internalDeliveryType: Option<int>)

  /** The domain view of an order location: the option together with the one field it needs. */
  datatype Placement = LocalDelivery(internalDeliveryType: int) | CourierDelivery(storeId: int)

  /** The flat storage encoding of a placement: the option code and two optional fields. */
  datatype Fields = Fields(deliveryOption: int, storeId: Option<int>, internalDeliveryType: Option<int>)

  function Flatten(p: Placement): (f: Fields)
    ensures f.storeId.Some? != f.internalDeliveryType.Some?
    ensures OptionOfCode(f.deliveryOption) == Some(if p.LocalDelivery? then Local else Courier)
  {
    match p
    case LocalDelivery(t) => Fields(1, None, Some(t))
    case CourierDelivery(s) => Fields(2, Some(s), None)
  }

  /** Reads a placement back from its flat encoding; fails on any other combination of fields. */
  function Unflatten(f: Fields): (r: Option<Placement>)
    ensures r.Some? ==> Flatten(r.value) == f
    ensures forall p :: Flatten(p) == f ==> r == Some(p)
  {
    if f.deliveryOption == 1 && f.storeId.None? && f.internalDeliveryType.Some? then
      Some(LocalDelivery(f.internalDeliveryType.value))
    else if f.deliveryOption == 2 && f.storeId.Some? && f.internalDeliveryType.None? then
      Some(CourierDelivery(f.storeId.value))
    else
      None
  }

  function FieldsOf(l: OrderLocation): Fields
  {
    Fields(l.deliveryOption, l.storeId, l.internalDeliveryType)
  }

  /** The `$set` document `createOrderLocation` writes; `Unset` fields are `undefined`. */
  datatype UpdatePayload = UpdatePayload(
    orderId: string, deliveryOption: int, storeId: NumberField, internalDeliveryType: NumberField)

  datatype Rejection = Rejection(status: nat, message: string)

  const MissingFields := "order_id and delivery option are required."
  const OptionOutOfRange := "Delivery option must be 1 (Local) or 2 (Courier)."
  const StoreIdRequired := "Store ID is required for Courier delivery."
  const TypeRequired := "Internal Delivery Type is required for Local delivery."
  const Saved := "Order location created/updated successfully."
  const SaveFailed := "Internal server error. Please try again later."

  /** `order_id` is truthy. */
  predicate HasOrderId(req: OrderLocationData)
  {
    req.orderId.Some? && JsValues.Truthy(JsValues.Str(req.orderId.value))
  }

  /** `deliveryOption` is truthy: present and not 0. */
  predicate HasOption(req: OrderLocationData)
  {
    req.deliveryOption.Some? && JsValues.Truthy(JsValues.Num(req.deliveryOption.value))
  }

  /** The JavaScript value an optional number field holds after validation. */
  function FieldValue(f: NumberField): JsValues.Value
  {
    match f
    case Unset => JsValues.Undefined
    case NullValue => JsValues.Null
    case EmptyString => JsValues.Str("")
    case Number(n) => JsValues.Num(n)
  }

  /** JavaScript truthiness of an optional number field: only a non-zero number. */
  predicate FieldTruthy(f: NumberField)
  {
    JsValues.Truthy(FieldValue(f))
  }

  /** The requests `createOrderLocation` lets through to the upsert. */
  predicate Accepted(req: OrderLocationData)
  {
    && HasOrderId(req)
    && ((req.deliveryOption == Some(1) && FieldTruthy(req.internalDeliveryType))
        || (req.deliveryOption == Some(2) && FieldTruthy(req.storeId)))
  }

  /** The placement a request asks for, when it names a known option. */
  function RequestedPlacement(req: OrderLocationData): Option<Placement>
  {
    if req.deliveryOption == Some(1) && req.internalDeliveryType.Number? then
      Some(LocalDelivery(req.internalDeliveryType.n))
    else if req.deliveryOption == Some(2) && req.storeId.Number? then
      Some(CourierDelivery(req.storeId.n))
    else
      None
  }

  /** The fields the payload sets, with `undefined`, `null` and `""` all read as absent. */
  function PayloadFields(p: UpdatePayload): Fields
  {
    Fields(p.deliveryOption,
           if p.storeId.Number? then Some(p.storeId.n) else None,
           if p.internalDeliveryType.Number? then Some(p.internalDeliveryType.n) else None)
  }

  /**
   * The checks of `createOrderLocation`, in order (missing fields, option
   * range, the field the option needs), then the update payload, in which
   * exactly the field that belongs to the chosen option is defined.
   */
  function Decide(req: OrderLocationData): (r: Result<UpdatePayload, Rejection>)
    ensures (!HasOrderId(req) || !HasOption(req)) <==> r == Err(Rejection(400, MissingFields))
    ensures HasOrderId(req) && HasOption(req) && OptionOfCode(req.deliveryOption.value).None?
            ==> r == Err(Rejection(400, OptionOutOfRange))
    ensures HasOrderId(req) && req.deliveryOption == Some(2) && !FieldTruthy(req.storeId)
            ==> r == Err(Rejection(400, StoreIdRequired))
    ensures HasOrderId(req) && req.deliveryOption == Some(1) && !FieldTruthy(req.internalDeliveryType)
            ==> r == Err(Rejection(400, TypeRequired))
    ensures r.Err? ==> r.error.status == 400
    ensures r.Ok? <==> Accepted(req)
    ensures r.Ok? ==> r.value.orderId == req.orderId.value && r.value.deliveryOption == req.deliveryOption.value
    ensures r.Ok? && req.deliveryOption == Some(2)
            ==> r.value.storeId == req.storeId && r.value.internalDeliveryType == Unset
    ensures r.Ok? && req.deliveryOption == Some(1)
            ==> r.value.internalDeliveryType == req.internalDeliveryType && r.value.storeId == Unset
    ensures r.Ok? ==> RequestedPlacement(req).Some? && Unflatten(PayloadFields(r.value)) == RequestedPlacement(req)
  {
    if !HasOrderId(req) || !HasOption(req) then
      Err(Rejection(400, MissingFields))
    else
      var option := req.deliveryOption.value;
      if option != 1 && option != 2 then
        Err(Rejection(400, OptionOutOfRange))
      else if option == 2 && !FieldTruthy(req.storeId) then
        Err(Rejection(400, StoreIdRequired))
      else if option == 1 && !FieldTruthy(req.internalDeliveryType) then
        Err(Rejection(400, TypeRequired))
      else
        var kind := req.internalDeliveryType;
        Ok(UpdatePayload(
          req.orderId.value,
          option,
          if option == 2 && req.storeId.Number? then req.storeId else Unset,
          if option == 1 && !kind.Unset? && !kind.NullValue? then kind else Unset))
  }

  /** Order locations keyed by order id. */
  type Store = map<string, OrderLocation>

  /**
   * The value a stored field takes under `$set`. Whether `$set` of an
   * `undefined` field clears it or leaves it alone is `clearsUndefined`;
   * `null` and `""` are stored as null.
   */
  function SetField(current: Option<int>, f: NumberField, clearsUndefined: bool): Option<int>
  {
    match f
    case Number(n) => Some(n)
    case Unset => if clearsUndefined then None else current
    case _ => None
  }

  /**
   * `findOneAndUpdate({order_id}, {$set: payload}, {upsert: true})`: creates
   * the record when the key is new, otherwise updates it, and touches no
   * other key.
   */
  function Upsert(store: Store, p: UpdatePayload, clearsUndefined: bool): (s: Store)
    ensures s.Keys == store.Keys + {p.orderId}
    ensures forall k :: k in store && k != p.orderId ==> s[k] == store[k]
    ensures s[p.orderId].orderId == p.orderId && s[p.orderId].deliveryOption == p.deliveryOption
    ensures p.storeId.Number? ==> s[p.orderId].storeId == Some(p.storeId.n)
    ensures p.internalDeliveryType.Number? ==> s[p.orderId].internalDeliveryType == Some(p.internalDeliveryType.n)
    ensures (p.orderId !in store || clearsUndefined) && p.storeId.Unset? ==> s[p.orderId].storeId.None?
    ensures (p.orderId !in store || clearsUndefined) && p.internalDeliveryType.Unset?
            ==> s[p.orderId].internalDeliveryType.None?
    ensures p.orderId in store && !clearsUndefined && p.storeId.Unset?
            ==> s[p.orderId].storeId == store[p.orderId].storeId
    ensures p.orderId in store && !clearsUndefined && p.internalDeliveryType.Unset?
            ==> s[p.orderId].internalDeliveryType == store[p.orderId].internalDeliveryType
  {
    var current := if p.orderId in store then store[p.orderId] else OrderLocation(p.orderId, p.deliveryOption, None, None);
    store[p.orderId := OrderLocation(
      p.orderId, p.deliveryOption,
      SetField(current.storeId, p.storeId, clearsUndefined),
      SetField(current.internalDeliveryType, p.internalDeliveryType, clearsUndefined))]
  }

  /** An HTTP reply: status, message ("" when the body has none) and the record sent back. */
  datatype Reply = Reply(status: nat, message: string, data: Option<OrderLocation>)

  datatype Outcome = Outcome(store: Store, reply: Reply)

  /**
   * `createOrderLocation`: a 400 for a refused request, a 500 when the write
   * fails (`writeFails`), otherwise the upsert and a 200 carrying the stored
   * record.
   */
  function CreateOrderLocation(store: Store, req: OrderLocationData, clearsUndefined: bool, writeFails: bool)
    : (r: Outcome)
    ensures r.reply.status == 200 <==> Decide(req).Ok? && !writeFails
    ensures r.reply.status != 200 ==> r.store == store && r.reply.data.None?
    ensures Decide(req).Err? ==> r.reply == Reply(400, Decide(req).error.message, None)
    ensures Decide(req).Ok? && writeFails ==> r.reply == Reply(500, SaveFailed, None)
    ensures r.reply.status == 200 ==>
              && r.store.Keys == store.Keys + {req.orderId.value}
              && (forall k :: k in store && k != req.orderId.value ==> r.store[k] == store[k])
              && r.reply == Reply(200, Saved, Some(r.store[req.orderId.value]))
              && r.store[req.orderId.value].orderId == req.orderId.value
              && r.store[req.orderId.value].deliveryOption == req.deliveryOption.value
  {
    match Decide(req)
    case Err(rejection) => Outcome(store, Reply(rejection.status, rejection.message, None))
    case Ok(payload) =>
      if writeFails then Outcome(store, Reply(500, SaveFailed, None))
      else
        var s := Upsert(store, payload, clearsUndefined);
        Outcome(s, Reply(200, Saved, Some(s[payload.orderId])))
  }

  const OrderIdMissing := "orderId is required."
  const NotFound := "Order location not found."
  const LookupFailed := "Internal server error."

  /**
   * `getOrderLocationByOrderId`: 400 without an id, 500 when the read fails
   * (`readFails`), 404 when no record has that id, else 200 with the record.
   */
  function GetOrderLocationByOrderId(store: Store, orderId: Option<string>, readFails: bool): (r: Reply)
    ensures r.status == 400 <==> orderId.None? || orderId.value == ""
    ensures r.status == 500 <==> orderId.Some? && orderId.value != "" && readFails
    ensures r.status == 404 <==> orderId.Some? && orderId.value != "" && !readFails && orderId.value !in store
    ensures r.status == 200 <==> orderId.Some? && orderId.value != "" && !readFails && orderId.value in store
    ensures r.status == 200 ==> r.data == Some(store[orderId.value])
    ensures r.status != 200 ==> r.data.None?
  {
    if orderId.None? || orderId.value == "" then Reply(400, OrderIdMissing, None)
    else if readFails then Reply(500, LookupFailed, None)
    else if orderId.value !in store then Reply(404, NotFound, None)
    else Reply(200, "", Some(store[orderId.value]))
  }

  /** Every record sits under its own order id and encodes exactly one placement. */
  predicate StoreValid(store: Store)
  {
    forall k :: k in store ==> store[k].orderId == k && Unflatten(FieldsOf(store[k])).Some?
  }

  /**
   * When `$set` clears undefined fields, a successful create stores exactly
   * the requested placement and keeps every record well formed.
   */
  lemma CreateStoresPlacement(store: Store, req: OrderLocationData)
    requires StoreValid(store)
    requires CreateOrderLocation(store, req, true, false).reply.status == 200
    ensures var s := CreateOrderLocation(store, req, true, false).store;
            && StoreValid(s)
            && Unflatten(FieldsOf(s[req.orderId.value])) == RequestedPlacement(req)
  {
  }

  /** A record written by a successful create is what the lookup returns for its id. */
  lemma CreateThenGet(store: Store, req: OrderLocationData, clearsUndefined: bool)
    requires CreateOrderLocation(store, req, clearsUndefined, false).reply.status == 200
    ensures var r := CreateOrderLocation(store, req, clearsUndefined, false);
            GetOrderLocationByOrderId(r.store, req.orderId, false) == Reply(200, "", r.reply.data)
  {
  }

  /**
   * Re-sending order A1 as Local after it was stored as Courier: when `$set`
   * clears undefined fields the store id is gone; when it leaves them alone
   * the stale store id stays beside the new delivery type.
   */
  lemma CourierThenLocal()
    ensures var courier := OrderLocationData(Some("A1"), Some(2), Number(7), Unset);
            var local := OrderLocationData(Some("A1"), Some(1), Unset, Number(3));
            && CreateOrderLocation(CreateOrderLocation(map[], courier, true, false).store, local, true, false).store["A1"]
               == OrderLocation("A1", 1, None, Some(3))
            && CreateOrderLocation(CreateOrderLocation(map[], courier, false, false).store, local, false, false).store["A1"]
               == OrderLocation("A1", 1, Some(7), Some(3))
  {
  }
}
