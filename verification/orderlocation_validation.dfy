/**
 * The request schema of the order-location endpoint: `order_id` a required
 * non-empty string, `deliveryOption` a required number with no range, and
 * `storeId` / `internalDeliveryType` each either absent, `null`, `""` or a
 * number. Which of the two optional fields is needed is not the schema's
 * concern: the controller checks it.
 */
module OrderLocationValidation {
  import opened Wrappers
  import opened JsValues
  import opened Joi

  /** The request body as received. */
  datatype OrderLocationBody = OrderLocationBody(
    orderId: Value, deliveryOption: Value, storeId: Value, internalDeliveryType: Value)

  /** A value the schema admits for an optional number field. `Unset` is `undefined`. */
  datatype NumberField = Unset | NullValue | EmptyString | Number(n: int)

  /**
   * The typed request the controller works on. The schema always supplies
   * `orderId` and `deliveryOption`; the controller still checks them.
   */
  datatype OrderLocationData = OrderLocationData(
    orderId: Option<string>, deliveryOption: Option<int>,
    storeId: NumberField, internalDeliveryType: NumberField)

  const OrderIdRequired := "Order ID is required"
  const OrderIdEmpty := "Order ID cannot be empty"
  const OptionRequired := "Delivery option is required"
  const OptionNotNumber := "Delivery option must be a number"
  const StoreIdNotNumber := "Store ID must be a number"
  const TypeNotNumber := "Internal delivery type must be a number"

  /** The `order_id` key. */
  function CheckOrderId(v: Value): (r: Check<string>)
    ensures r.Pass? <==> v.Str? && v.s != ""
    ensures r.Pass? ==> r.value == v.s
    ensures v.Undefined? ==> r == Fail(OrderIdRequired)
    ensures v == Str("") ==> r == Fail(OrderIdEmpty)
  {
    RequiredString(v, "order_id", OrderIdRequired, OrderIdEmpty)
  }

  /** The `deliveryOption` key: any number, a numeric string included. */
  function CheckDeliveryOption(v: Value): (r: Check<int>)
    ensures r.Pass? <==> CoerceNumber(v).Num?
    ensures r.Pass? ==> CoerceNumber(v) == Num(r.value)
    ensures v.Undefined? ==> r == Fail(OptionRequired)
    ensures !v.Undefined? && r.Fail? ==> r.message == OptionNotNumber
  {
    match CoerceNumber(v)
    case Undefined => Fail(OptionRequired)
    case Num(n) => Pass(n)
    case _ => Fail(OptionNotNumber)
  }

  /**
   * An optional number key that also admits `null` and `""`; anything else
   * is reported with the key's own message.
   */
  function CheckOptionalNumber(v: Value, message: string): (r: Check<NumberField>)
    ensures r.Pass? <==> v.Undefined? || v.Null? || v == Str("") || CoerceNumber(v).Num?
    ensures r.Fail? ==> r.message == message
    ensures v.Undefined? ==> r == Pass(Unset)
    ensures v.Null? ==> r == Pass(NullValue)
    ensures v == Str("") ==> r == Pass(EmptyString)
    ensures CoerceNumber(v).Num? ==> r == Pass(Number(CoerceNumber(v).n))
  {
    match CoerceNumber(v)
    case Undefined => Pass(Unset)
    case Null => Pass(NullValue)
    case Str(s) => if s == "" then Pass(EmptyString) else Fail(message)
    case Num(n) => Pass(Number(n))
    case Bool(_) => Fail(message)
  }

  /** What the schema accepts, stated key by key. */
  predicate Acceptable(b: OrderLocationBody)
  {
    && b.orderId.Str? && b.orderId.s != ""
    && CoerceNumber(b.deliveryOption).Num?
    && (b.storeId.Undefined? || b.storeId.Null? || b.storeId == Str("") || CoerceNumber(b.storeId).Num?)
    && (b.internalDeliveryType.Undefined? || b.internalDeliveryType.Null?
        || b.internalDeliveryType == Str("") || CoerceNumber(b.internalDeliveryType).Num?)
  }

  /**
   * The whole schema: either the typed request, or one message for each
   * failing key in declaration order.
   */
  function Validate(b: OrderLocationBody): (r: Result<OrderLocationData, seq<string>>)
    ensures r.Ok? <==> Acceptable(b)
    ensures r.Ok? ==> r.value.orderId == Some(b.orderId.s) && b.orderId.s != ""
    ensures r.Ok? ==> r.value.deliveryOption == Some(CoerceNumber(b.deliveryOption).n)
    ensures r.Err? ==> 1 <= |r.error| <= 4
    ensures r.Err? ==> r.error == Messages(CheckOrderId(b.orderId)) + Messages(CheckDeliveryOption(b.deliveryOption))
                                  + Messages(CheckOptionalNumber(b.storeId, StoreIdNotNumber))
                                  + Messages(CheckOptionalNumber(b.internalDeliveryType, TypeNotNumber))
  {
    var id := CheckOrderId(b.orderId);
    var option := CheckDeliveryOption(b.deliveryOption);
    var store := CheckOptionalNumber(b.storeId, StoreIdNotNumber);
    var kind := CheckOptionalNumber(b.internalDeliveryType, TypeNotNumber);
    if id.Pass? && option.Pass? && store.Pass? && kind.Pass? then
      Ok(OrderLocationData(Some(id.value), Some(option.value), store.value, kind.value))
    else
      Err(Messages(id) + Messages(option) + Messages(store) + Messages(kind))
  }

  /**
   * An empty body is refused with the two required-key messages, in key
   * order; the optional keys report nothing.
   */
  lemma EmptyBodyMessages()
    ensures Validate(OrderLocationBody(Undefined, Undefined, Undefined, Undefined))
         == Err([OrderIdRequired, OptionRequired])
  {
    var b := OrderLocationBody(Undefined, Undefined, Undefined, Undefined);
    assert CheckOrderId(b.orderId) == Fail(OrderIdRequired);
    assert CheckDeliveryOption(b.deliveryOption) == Fail(OptionRequired);
    assert CheckOptionalNumber(b.storeId, StoreIdNotNumber).Pass?;
    assert CheckOptionalNumber(b.internalDeliveryType, TypeNotNumber).Pass?;
    assert [OrderIdRequired] + [OptionRequired] + [] + [] == [OrderIdRequired, OptionRequired];
  }

  /**
   * The schema puts no range on `deliveryOption` and does not ask for
   * `internalDeliveryType` when the option is Local (1).
   */
  lemma SchemaLeavesChecksToController(orderId: string, option: int)
    requires orderId != ""
    ensures Validate(OrderLocationBody(Str(orderId), Num(option), Undefined, Undefined))
         == Ok(OrderLocationData(Some(orderId), Some(option), Unset, Unset))
  {
  }

  /** A store id sent as the decimal string of a number is accepted as that number. */
  lemma NumericStoreIdAccepted(orderId: string, option: int, storeId: int)
    requires orderId != ""
    ensures Validate(OrderLocationBody(Str(orderId), Num(option), Str(ShowInt(storeId)), Null))
         == Ok(OrderLocationData(Some(orderId), Some(option), Number(storeId), NullValue))
  {
    ParseShowInt(storeId);
  }

  /** Anything but absent, `null`, `""` or a number is refused for `storeId`. */
  lemma StoreIdMustBeNumber(b: OrderLocationBody)
    requires b.orderId.Str? && b.orderId.s != "" && b.deliveryOption.Num?
    requires b.internalDeliveryType.Undefined?
    requires b.storeId.Bool? || (b.storeId.Str? && b.storeId.s != "" && ParseInteger(b.storeId.s).None?)
    ensures Validate(b) == Err([StoreIdNotNumber])
  {
    assert CheckOptionalNumber(b.storeId, StoreIdNotNumber) == Fail(StoreIdNotNumber);
    assert [] + [] + [StoreIdNotNumber] + [] == [StoreIdNotNumber];
  }
}
