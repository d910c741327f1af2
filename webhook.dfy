/**
 * The Stripe webhook of app/api/webhooks/stripe/route.ts: check the
 * signature header, obtain the event, and on a confirmed payment delete every
 * shopping list of the user named in the session metadata.
 *
 * Obtaining the event (`stripe.webhooks.constructEvent` when a webhook secret
 * is configured, `JSON.parse` of the body otherwise) is an oracle: the
 * parameter `parsed` is the event or the message of what it threw. An event
 * always has its type and, for the handled types, its session: a parsed body
 * lacking them, which the handler would answer with 500, is not expressible. The
 * Supabase part of `handlePaymentSuccess` is a `Backend`: whether the client
 * can be configured and whether the delete reports an error.
 */
module Webhook {
  import opened Wrappers
  import opened Store

  const CompletedType := "checkout.session.completed"
  const AsyncSucceededType := "checkout.session.async_payment_succeeded"
  const AsyncFailedType := "checkout.session.async_payment_failed"
  const PaidStatus := "paid"
  const MissingSignatureMessage := "Missing stripe-signature header"
  const WebhookErrorPrefix := "Webhook Error: "

  /** `session.metadata.items`: absent or empty, valid JSON, or text `JSON.parse` throws on. */
  datatype ItemsMetadata = NoItems | ItemsJson | ItemsMalformed(message: string)

  /** The fields of an event the handler reads. */
  datatype Event = Event(eventType: string, paymentStatus: Option<string>, userId: Option<string>, items: ItemsMetadata)

  /** The Supabase client of lines 35-44 and the outcome of the delete of lines 59-63. */
  datatype Backend = Backend(configured: bool, deleteFails: bool)

  datatype ResponseBody = Received | Failure(error: string)

  datatype Response = Response(status: nat, body: ResponseBody)

  /** `!signature`: the header is missing or empty. */
  predicate SignatureMissing(signature: Option<string>) {
    signature.None? || signature.value == ""
  }

  /** Lines 125-146: a completed session that is already paid, or a delayed payment that succeeded. */
  predicate ConfirmsPayment(e: Event) {
    (e.eventType == CompletedType && e.paymentStatus == Some(PaidStatus)) || e.eventType == AsyncSucceededType
  }

  /** The events whose handler runs `JSON.parse(session.metadata.items)` (lines 22-23, 159-160). */
  predicate ParsesItems(e: Event) {
    ConfirmsPayment(e) || e.eventType == AsyncFailedType
  }

  /** `if (userId)` on line 32: a present, non-empty user id. */
  predicate HasUserId(e: Event) {
    e.userId.Some? && e.userId.value != ""
  }

  /** The response of `POST`. */
  function Respond(signature: Option<string>, parsed: Result<Event, string>): (r: Response)
    ensures r.status in {200, 400, 500}
    ensures r.status == 200 <==> r.body == Received
  {
    if SignatureMissing(signature) then Response(400, Failure(MissingSignatureMessage))
    else if parsed.Err? then Response(400, Failure(WebhookErrorPrefix + parsed.error))
    else if ParsesItems(parsed.value) && parsed.value.items.ItemsMalformed? then
      Response(500, Failure(parsed.value.items.message))
    else Response(200, Received)
  }

  /** The user whose lists `POST` deletes, if any. */
  function ClearTarget(signature: Option<string>, parsed: Result<Event, string>, backend: Backend): Option<string> {
    if SignatureMissing(signature) || parsed.Err? then None
    else
      var e := parsed.value;
      if !ConfirmsPayment(e) || e.items.ItemsMalformed? || !HasUserId(e) then None
      else if !backend.configured || backend.deleteFails then None
      else e.userId
  }

  /** The table after `POST`. */
  function Effect(rows: Rows, signature: Option<string>, parsed: Result<Event, string>, backend: Backend): Rows {
    match ClearTarget(signature, parsed, backend)
    case None => rows
    case Some(u) => DeleteWhereUser(rows, u)
  }

  /**
   * The status table: 400 for a missing signature or an event that cannot be
   * obtained, 500 only when the metadata items of a handled event do not
   * parse, and `{received: true}` with 200 in every other case, including a
   * missing Supabase configuration and a failed delete.
   */
  lemma WebhookStatuses(signature: Option<string>, parsed: Result<Event, string>)
    ensures Respond(signature, parsed).status == 400 <==> SignatureMissing(signature) || parsed.Err?
    ensures Respond(signature, parsed).status == 500 <==>
      !SignatureMissing(signature) && parsed.Ok? && ParsesItems(parsed.value) && parsed.value.items.ItemsMalformed?
    ensures Respond(signature, parsed).status == 200 <==> Respond(signature, parsed).body == Received
    ensures Respond(signature, parsed).status in {200, 400, 500}
    ensures !SignatureMissing(signature) && parsed.Err? ==>
      Respond(signature, parsed).body == Failure(WebhookErrorPrefix + parsed.error)
  {
  }

  /**
   * Rows are deleted only for a confirmed payment whose metadata names a
   * non-empty user id, and then they are exactly that user's rows. A missing
   * signature, a pending or failed payment, any other event type, and the
   * empty user id the checkout route sends for an anonymous cart delete nothing.
   */
  lemma OnlyConfirmedPaymentsClear(rows: Rows, signature: Option<string>, parsed: Result<Event, string>, backend: Backend)
    ensures Effect(rows, signature, parsed, backend) != rows ==>
      && !SignatureMissing(signature) && parsed.Ok? && ConfirmsPayment(parsed.value) && HasUserId(parsed.value)
      && Effect(rows, signature, parsed, backend) == DeleteWhereUser(rows, parsed.value.userId.value)
    ensures parsed.Ok? && parsed.value.eventType == CompletedType && parsed.value.paymentStatus != Some(PaidStatus) ==>
      Effect(rows, signature, parsed, backend) == rows
    ensures parsed.Ok? && parsed.value.userId == Some("") ==> Effect(rows, signature, parsed, backend) == rows
    ensures parsed.Ok? && parsed.value.eventType == AsyncSucceededType && parsed.value.items.NoItems?
            && HasUserId(parsed.value) && !SignatureMissing(signature) && backend == Backend(true, false) ==>
      Effect(rows, signature, parsed, backend) == DeleteWhereUser(rows, parsed.value.userId.value)
  {
  }

  /**
   * Stripe may deliver an event more than once: a second delivery deletes no
   * further row, and no delivery touches another user's rows.
   */
  lemma RedeliveryIsHarmless(rows: Rows, signature: Option<string>, parsed: Result<Event, string>, backend: Backend)
    ensures Effect(Effect(rows, signature, parsed, backend), signature, parsed, backend) == Effect(rows, signature, parsed, backend)
    ensures forall id :: id in rows && (ClearTarget(signature, parsed, backend) != Some(rows[id].userId)) ==>
      id in Effect(rows, signature, parsed, backend) && Effect(rows, signature, parsed, backend)[id] == rows[id]
  {
    match ClearTarget(signature, parsed, backend)
    case None =>
    case Some(u) =>
      DeleteWhereUserIdempotent(rows, u);
  }

  /**
   * `POST` (lines 89-190) with `handlePaymentSuccess` (lines 13-87) inlined:
   * the response, and the delete it issues against `table`. The client of
   * line 44 has no session; the table has no row policies here, so a delete
   * that reports no error is taken to remove the filtered rows.
   */
  method Post(table: Table, signature: Option<string>, parsed: Result<Event, string>, backend: Backend)
    returns (response: Response)
    modifies table
    ensures response == Respond(signature, parsed)
    ensures table.rows == Effect(old(table.rows), signature, parsed, backend)
  {
    if SignatureMissing(signature) {
      return Response(400, Failure(MissingSignatureMessage));
    }
    if parsed.Err? {
      return Response(400, Failure(WebhookErrorPrefix + parsed.error));
    }
    var e := parsed.value;
    if ParsesItems(e) && e.items.ItemsMalformed? {
      return Response(500, Failure(e.items.message));
    }
    if ConfirmsPayment(e) && HasUserId(e) && backend.configured && !backend.deleteFails {
      table.DeleteByUser(e.userId.value);
    }
    response := Response(200, Received);
  }
}
