/**
 * Delivery-man assignment: one contact (name and phone number) per order id,
 * written by an upsert, plus the status-update endpoint, which acknowledges
 * and changes nothing.
 */
module DeliveryMen {
  import opened Wrappers
  import opened DeliveryManValidation

  /** A stored delivery-man document. */
  datatype DeliveryMan = DeliveryMan(orderId: string, name: string, phoneNumber: string)

  /** What is kept per order id. */
  datatype Contact = Contact(name: string, phoneNumber: string)

  /** Assignments keyed by order id. */
  type Store = map<string, Contact>

  /** An HTTP reply with the JSON fields these handlers use. */
  datatype Reply = Reply(status: nat, success: Option<bool>, message: Option<string>, error: Option<string>)

  datatype Outcome = Outcome(store: Store, reply: Reply)

  const Assigned := "Delivery man assigned successfully"
  const AssignFailed := "Internal server error"

  /**
   * `assignDeliveryMan`: upserts the contact under the order id. When the
   * write fails (`writeFails`) nothing is stored and a 500 without detail is
   * returned.
   */
  function AssignDeliveryMan(store: Store, req: DeliveryManData, writeFails: bool): (r: Outcome)
    ensures !writeFails ==> r.store.Keys == store.Keys + {req.orderId}
    ensures !writeFails ==> r.store[req.orderId] == Contact(req.name, req.phoneNumber)
    ensures forall k :: k in store && k != req.orderId ==> k in r.store && r.store[k] == store[k]
    ensures |r.store| == if writeFails || req.orderId in store then |store| else |store| + 1
    ensures !writeFails ==> r.reply == Reply(200, None, Some(Assigned), None)
    ensures writeFails ==> r.store == store && r.reply == Reply(500, None, None, Some(AssignFailed))
  {
    if writeFails then Outcome(store, Reply(500, None, None, Some(AssignFailed)))
    else Outcome(store[req.orderId := Contact(req.name, req.phoneNumber)], Reply(200, None, Some(Assigned), None))
  }

  /** Sending the same assignment twice leaves the store as sending it once. */
  lemma AssignIdempotent(store: Store, req: DeliveryManData)
    ensures var once := AssignDeliveryMan(store, req, false);
            AssignDeliveryMan(once.store, req, false) == once
  {
  }

  /**
   * Reassigning an order to someone else overwrites the one record: no
   * history is kept and the number of records does not change.
   */
  lemma ReassignReplaces(store: Store, first: DeliveryManData, second: DeliveryManData)
    requires first.orderId == second.orderId
    ensures var s1 := AssignDeliveryMan(store, first, false).store;
            var s2 := AssignDeliveryMan(s1, second, false).store;
            |s2| == |s1| && s2[second.orderId] == Contact(second.name, second.phoneNumber)
  {
  }

  /**
   * A body the schema accepted is stored with the trimmed phone number, which
   * matches the phone pattern.
   */
  lemma ValidatedAssignment(store: Store, body: DeliveryManBody)
    requires Validate(body).Ok?
    ensures var req := Validate(body).value;
            var c := AssignDeliveryMan(store, req, false).store[req.orderId];
            PhonePattern(c.phoneNumber) && JsValues.Trim(c.phoneNumber) == c.phoneNumber
            && c.name == body.name.s && |c.name| >= 2
  {
    AcceptedPhoneIsClean(body);
  }

  /** The status-update request; the handler reads none of it. */
  datatype StatusUpdate = StatusUpdate(fulfillmentEvent: string, fulfillmentId: string, orderId: string, storeId: string)

  const StatusUpdated := "Delivery status updated successfully"
  const StatusUpdateFailed := "Failed to update delivery status"

  /**
   * `updateDeliveryStatus`: the forwarding it was meant to do is not there,
   * so it changes no state. A request without a body fails to destructure and
   * answers 500; any other request is acknowledged.
   */
  function UpdateDeliveryStatus<S>(state: S, body: Option<StatusUpdate>): (r: (S, Reply))
    ensures r.0 == state
    ensures body.Some? ==> r.1 == Reply(200, Some(true), Some(StatusUpdated), None)
    ensures body.None? ==> r.1 == Reply(500, Some(false), Some(StatusUpdateFailed), None)
  {
    if body.None? then (state, Reply(500, Some(false), Some(StatusUpdateFailed), None))
    else (state, Reply(200, Some(true), Some(StatusUpdated), None))
  }
}
