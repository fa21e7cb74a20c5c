# Delivery tracking for a Shopify storefront, in Dafny

This project models the delivery-tracking back end of a Shopify storefront
app. Merchants use it to record how each order is delivered and to list the
orders the store delivers itself. It covers:

- the **request schemas**. The delivery-man body has an order id, a name and a
  phone number that must match `^[+]?[\d\s\-()]+$` after trimming. The
  order-location body has an order id, a delivery option, and an optional store
  id and internal delivery type. Both schemas collect one message per failing
  key, in key order, as the validation middleware configures them.
- **order locations** (`createOrderLocation`, `getOrderLocationByOrderId`).
  The controller checks requests in a fixed order: missing fields, then option
  range, then Courier needs a store id, then Local needs a delivery type. An
  accepted request becomes an update payload. The store holds one record per
  order id and the payload is upserted into it.
- **delivery men** (`assignDeliveryMan`, `updateDeliveryStatus`): one contact per
  order id, overwritten on reassignment. The status update is a stub.
- **delivery orders**: the required fields, the courier-service enumeration, the
  defaults, and the two unique indexes of the document schema.
- the **internal-delivery listing** (`getInternalDeliveryOrders`). It selects the
  store's INTERNAL orders that match the search and takes one page with
  `$skip`/`$limit`. Each order is projected to a summary whose status comes
  from its positionally last event. The page's Local order locations and
  delivery men are looked up, with the last record winning for each order id.
  Orders without a Local location are dropped, and the pagination block is
  built.

Modules, one per file: `Wrappers` (Option/Result) and `JsValues`, which holds
JavaScript values, truthiness, ECMAScript white space, `trim` and the integer
strings Joi converts to numbers. Then `Joi` (shared rule helpers),
`DeliveryManValidation`, `OrderLocationValidation`, `DeliveryOrders`,
`OrderLocations`, `DeliveryMen` and `Listing`.

The database is a value. An order-location store and a delivery-man store are
maps keyed by order id, because upserts are keyed by it. The collections the
listing reads are sequences in collection order. A failing database call is a
boolean parameter of the handler (`writeFails`, `readFails`). The search is a
`Matcher` parameter that stands for the case-insensitive regular-expression
test.

The unique compound index of delivery orders is (courier service, consignment
id); the store id is not part of it.

## Model

| member | source | states |
|---|---|---|
| JsValues.TrimShape | web/validators/deliveryMan.validation.ts:25 | the trimmed string is a slice of the input with only white space cut off either end, and has no white space at either end |
| JsValues.TrimOfPadded | web/validators/deliveryMan.validation.ts:25 | white-space padding around a string with no white space at its ends is removed exactly, giving that string back |
| JsValues.TrimIdempotent | web/validators/deliveryMan.validation.ts:25 | trimming twice is trimming once |
| JsValues.TrimIgnoresPadding | web/validators/deliveryMan.validation.ts:25 | extra white space around any string does not change its trim |
| JsValues.ParseShowInt | web/validators/orderLocation.validation.ts:18-25 | the decimal text of every integer converts back to that integer (the numeric-string conversion of number rules) |
| JsValues.DecimalValue | web/validators/orderLocation.validation.ts:18-21 | the digits written for a natural number denote that number |
| Joi.RequiredString | web/validators/orderLocation.validation.ts:13-16 | a required string passes exactly for a non-empty string and keeps it; missing gives the required message, "" the empty message, a non-string the type message |
| Joi.CoerceNumber | web/validators/orderLocation.validation.ts:18-21 | number rules turn a string that parses as an integer into that number and leave every other value unchanged |
| DeliveryManValidation.CheckOrderId | web/validators/deliveryMan.validation.ts:12-15 | the order id passes exactly when it is a non-empty string; missing or empty gives "Order ID is required" |
| DeliveryManValidation.CheckName | web/validators/deliveryMan.validation.ts:17-21 | the name passes exactly when it is a string of at least 2 characters; missing or empty is "required", one character is "at least 2 characters" |
| DeliveryManValidation.CheckPhone | web/validators/deliveryMan.validation.ts:23-31 | the phone passes exactly when its trim matches the pattern, and yields the trimmed text; a blank phone is "required", a non-matching one "valid phone number" |
| DeliveryManValidation.PhoneRecogniserAgrees | web/validators/deliveryMan.validation.ts:26 | a character-by-character recogniser of the phone regular expression accepts exactly the strings the pattern predicate describes |
| DeliveryManValidation.PlusOnlyFirst | web/validators/deliveryMan.validation.ts:26 | a `+` anywhere but first in the trimmed phone makes it invalid |
| DeliveryManValidation.PhonePaddingIgnored | web/validators/deliveryMan.validation.ts:23-26 | white space around a phone number never changes the verdict or the value |
| DeliveryManValidation.PhoneEdgeCases | web/validators/deliveryMan.validation.ts:26 | "+" alone and "1+2" are rejected; "()" and "+880 1711-000000" are accepted |
| DeliveryManValidation.Validate | web/validators/deliveryMan.validation.ts:11-32 | a body is accepted exactly when every key passes, and then yields the values with the phone trimmed; a rejection lists, in key order, the message of each key whose rules fail (1 to 3) |
| DeliveryManValidation.EmptyBodyMessages | web/validators/deliveryMan.validation.ts:11-32 | an empty body is refused with "Order ID is required", "Delivery man name is required", "Phone number is required", in that order |
| DeliveryManValidation.ShortNameOnlyMessage | web/validators/deliveryMan.validation.ts:17-21 | with a valid order id and phone, a one-character name is refused with only the length message |
| DeliveryManValidation.AcceptedPhoneIsClean | web/validators/deliveryMan.validation.ts:23-31 | an accepted phone number matches the pattern and has no surrounding white space |
| OrderLocationValidation.CheckOrderId | web/validators/orderLocation.validation.ts:13-16 | the order id passes exactly for a non-empty string; missing is "Order ID is required", empty is "Order ID cannot be empty" |
| OrderLocationValidation.CheckDeliveryOption | web/validators/orderLocation.validation.ts:18-21 | the option passes exactly when it is or converts to a number; missing is "required", anything else failing is "must be a number" |
| OrderLocationValidation.CheckOptionalNumber | web/validators/orderLocation.validation.ts:23-29 | an optional number passes exactly when absent, null, "" or a (converted) number, keeping which of these it was; otherwise it fails with the field's message |
| OrderLocationValidation.Validate | web/validators/orderLocation.validation.ts:12-30 | a body is accepted exactly when every key passes; the order id is then non-empty and the option the converted number; a rejection lists, in key order, the message of each key whose rules fail (1 to 4) |
| OrderLocationValidation.EmptyBodyMessages | web/validators/orderLocation.validation.ts:12-30 | an empty body is refused with "Order ID is required" then "Delivery option is required"; the optional keys add nothing |
| OrderLocationValidation.SchemaLeavesChecksToController | web/validators/orderLocation.validation.ts:23-29 | the schema accepts a body with neither store id nor delivery type, whatever the option |
| OrderLocationValidation.NumericStoreIdAccepted | web/validators/orderLocation.validation.ts:23-25 | a store id sent as the text of an integer is accepted as that number |
| OrderLocationValidation.StoreIdMustBeNumber | web/validators/orderLocation.validation.ts:23-25 | a boolean or non-numeric text store id gives exactly the one message "Store ID must be a number" |
| OrderLocations.OptionOfCode | web/controllers/orderLocation.controller.ts:14-17 | only the codes 1 and 2 name a delivery option, and decoding inverts the option's code |
| OrderLocations.Flatten | web/models/orderLocation.model.ts:4-9 | a placement is stored with exactly one of store id and delivery type, and an option code that names its kind |
| OrderLocations.Unflatten | web/controllers/orderLocation.controller.ts:135-146 | reading fields back as a placement is the inverse of storing one, and succeeds for every stored placement |
| OrderLocations.Decide | web/controllers/orderLocation.controller.ts:105-146 | the four 400 checks fire in source order with their messages; a request passes exactly when all hold, and its payload carries the requested placement |
| OrderLocations.Upsert | web/controllers/orderLocation.controller.ts:148-152 | the record for the order id is created or updated with the payload's fields, and every other record is unchanged; unset fields are cleared or kept per the `$set` reading |
| OrderLocations.CreateOrderLocation | web/controllers/orderLocation.controller.ts:97-166 | 200 exactly for a request that passes when the write succeeds; a 400 carries the check's message; a failed write is 500; the store changes only on 200 |
| OrderLocations.GetOrderLocationByOrderId | web/controllers/orderLocation.controller.ts:168-191 | 400 for a missing or empty id, 500 on a failed read, 404 for an unknown id, and otherwise 200 with the stored record |
| OrderLocations.CreateStoresPlacement | web/controllers/orderLocation.controller.ts:135-152 | when `$set` clears undefined fields, a successful create stores exactly the requested placement and keeps every record well formed |
| OrderLocations.CreateThenGet | web/controllers/orderLocation.controller.ts:148-186 | a lookup after a successful create returns the record the create returned |
| OrderLocations.CourierThenLocal | web/controllers/orderLocation.controller.ts:135-152 | re-sending order A1 as Local after Courier clears the store id under one `$set` reading and keeps it under the other |
| DeliveryMen.AssignDeliveryMan | web/controllers/internalDelivery.ts:34-56 | the order's contact is created or replaced, every other contact is unchanged, the count grows only for a new order id; a failed write changes nothing and answers 500 |
| DeliveryMen.AssignIdempotent | web/controllers/internalDelivery.ts:41-45 | sending the same assignment twice has the effect of sending it once |
| DeliveryMen.ReassignReplaces | web/controllers/internalDelivery.ts:41-45 | reassigning an order keeps one record per order, holding the latest contact |
| DeliveryMen.ValidatedAssignment | web/controllers/internalDelivery.ts:38-45 | an assignment that passed the schema stores a phone that matches the pattern and is already trimmed, and a name of at least two characters |
| DeliveryMen.UpdateDeliveryStatus | web/controllers/internalDelivery.ts:58-90 | no state changes; a request with a body is acknowledged with 200, one without a body answers 500 |
| DeliveryOrders.ParseService | web/models/deliveryOrder.model.ts:4-10 | a courier-service name is accepted exactly when it names a service, and parsing inverts naming |
| DeliveryOrders.Insert | web/models/deliveryOrder.model.ts:65-132 | an order with an empty required field is refused; one that collides on the fulfillment id or on (courier, consignment) is a duplicate key; otherwise it is appended, and the collection stays valid |
| DeliveryOrders.Create | web/models/deliveryOrder.model.ts:76-120 | an unknown courier name is refused; a created order keeps the named service, gets no events and the current time by default, and the collection stays valid |
| DeliveryOrders.SharedIdsAllowed | web/models/deliveryOrder.model.ts:84-132 | two orders may share an order id and a consignment id when their couriers differ |
| Listing.LastEventStatusIsPositional | web/controllers/orderLocation.controller.ts:231-247 | the status is that of the event appended last, and none for an empty log |
| Listing.LastEventStatusIgnoresTime | web/controllers/orderLocation.controller.ts:231-247 | an event listed last wins even when it happened earlier |
| Listing.SelectMembers | web/controllers/orderLocation.controller.ts:217-223 | an order is kept exactly when it is store 1's, INTERNAL, and matches the search when there is one |
| Listing.SelectAppend | web/controllers/orderLocation.controller.ts:217-223 | selection keeps relative order: it distributes over concatenation |
| Listing.Window | web/controllers/orderLocation.controller.ts:253-258 | skip-then-limit yields at most `limit` items, the consecutive run starting at `skip`, and nothing past the end |
| Listing.SkipIsProduct | web/controllers/orderLocation.controller.ts:202 | the skip of a page is `(page - 1) * limit` |
| Listing.LastWriteWins | web/controllers/orderLocation.controller.ts:279-303 | the lookup object has exactly the keys of the fetched entries |
| Listing.LookupIsLastAdmitted | web/controllers/orderLocation.controller.ts:279-303 | a key is in the lookup exactly when a fetched document has it, and maps to the value of the last such document |
| Listing.LocationLookup | web/controllers/orderLocation.controller.ts:263-285 | a page order in the location lookup maps to the delivery type of its last Local location |
| Listing.ContactLookup | web/controllers/orderLocation.controller.ts:272-303 | a page order has a contact exactly when some delivery man is assigned to it, and then the last one assigned |
| Listing.JoinMembers | web/controllers/orderLocation.controller.ts:305-316 | the combined entries are exactly the page's orders that have a Local location, each with its delivery type and its contact or null |
| Listing.JoinAppend | web/controllers/orderLocation.controller.ts:305-316 | filtering and combining keep the page's order: they distribute over concatenation |
| Listing.CountDocumentsOfSelection | web/controllers/orderLocation.controller.ts:318-324 | the count query counts the selected orders whose id is among the page's ids |
| Listing.CeilDivIsCeiling | web/controllers/orderLocation.controller.ts:328 | `Math.ceil(n / d)` pages of `d` hold `n` items and one page fewer does not; it is 0 only for 0 items |
| Listing.PageOf | web/controllers/orderLocation.controller.ts:202-258 | a fetched page never holds more than `limit` orders |
| Listing.GetInternalDeliveryOrders | web/controllers/orderLocation.controller.ts:193-348 | the handler answers 500 exactly when a query fails or page or limit is below 1; otherwise it lists at most `limit` entries, echoes page and limit, and reports the search or null for none |
| Listing.PagesHoldTotal | web/controllers/orderLocation.controller.ts:328-337 | the reported total pages hold the reported total items, with no page to spare |
| Listing.TotalCoversPage | web/controllers/orderLocation.controller.ts:318-337 | the reported total is at least the number of orders fetched, which is at least the number listed |
| Listing.EntryFromPage | web/controllers/orderLocation.controller.ts:215-262 | each summary on the page comes from a selected order, and its id is among the ids used for the follow-up queries |
| Listing.EntryProvenance | web/controllers/orderLocation.controller.ts:262-316 | each listed entry is a selected order's summary, with its last Local location's delivery type and its last assigned delivery man, or null when none is assigned |
| Listing.DataIsFilteredPage | web/controllers/orderLocation.controller.ts:305-316 | the listed data of any split of the page is the data of the first part followed by that of the second |
| Listing.WindowedCountHidesLaterPages | web/controllers/orderLocation.controller.ts:318-337 | with two matching orders and one per page, page 1 reports one item on one page while page 2 still holds an order |
| Listing.GetInternalDeliveryOrdersCorrected | web/controllers/orderLocation.controller.ts:318-337 | the corrected listing fails in the same cases, including a failing query, and lists the same data as the handler; only the pagination block differs |
| Listing.SkipMonotone | web/controllers/orderLocation.controller.ts:202 | a later page never skips fewer items |
| Listing.CeilDivSkip | web/controllers/orderLocation.controller.ts:328 | the pages before the last reported page skip fewer than all items, and the page after it skips them all |
| Listing.PagesMatchData | web/controllers/orderLocation.controller.ts:318-337 | with the corrected count, a page lies within `totalPages` exactly when it holds orders |

## Left out

- The database engine is left out: Mongoose connections, documents, `_id`, timestamps, and the aggregation engine beyond the stages modelled. Collections are sequences and maps, and failures are boolean parameters.
- OrderLocations.Upsert: what `$set` does with a field whose value is `undefined` depends on driver settings that are not part of this model. It is a `clearsUndefined` parameter, and the one-placement store invariant is proved only for the clearing reading.
- Listing.SelectMembers: the search is an abstract `Matcher`. Regular-expression syntax, case folding and the error an invalid pattern raises (a 500) are not modelled.
- The listing's `$sort` stage is left out: it sorts on a field the projection removed, so it fixes no order, and the model keeps collection order.
- `parseInt` of page and limit is left out, including `NaN` for non-numeric text and defaults applied to missing query values. The model takes the parsed integers.
- Listing.GetInternalDeliveryOrders: the 500 reply is `Failed` without the exception's message it carries.
- Non-integer numbers are left out: fractions, exponents, Joi's unsafe-integer check and floating point. Numbers are integers, and numeric strings are optionally signed decimal integers with surrounding white space.
- String lengths count characters, not UTF-16 code units, so names with characters outside the basic plane are not modelled.
- Objects and arrays as body values, unknown keys (`stripUnknown`), and inherited-property quirks of plain-object lookups are left out.
- Express routing and middleware wiring are left out. The route files register stub handlers and import paths that do not match the controller files.
- DeliveryMen.UpdateDeliveryStatus: the courier event forwarding is commented out in the source, so the handler only acknowledges. `customerInfo` is ignored.
- DeliveryMen.AssignDeliveryMan: the body is destructured before the `try`, so a missing body throws outside it. The model takes the validated request.
- Logging, timestamps (`createdAt`/`updatedAt` set by the database), the front end, configuration and type declarations are left out.
- Concurrent requests and races between the listing's separate queries are left out.

## Findings

| source | as written | input that shows it | evidently intended | confidence | as-written member | corrected member |
|---|---|---|---|---|---|---|
| web/controllers/orderLocation.controller.ts:318-328 | the count behind `totalItems` and `totalPages` is restricted to the order ids of the page just fetched | two matching INTERNAL orders, `limit` 1, `page` 1: the reply says 1 item on 1 page, yet page 2 holds the second order | count every order the match stage selects, so that a page lies within `totalPages` exactly when it holds orders | not executed | Listing.WindowedCountHidesLaterPages | Listing.PagesMatchData |
