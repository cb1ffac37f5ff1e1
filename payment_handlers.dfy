/** The decisions of the payment handlers (`createOrder`, `verifyPayment`,
    `getMyPayments`, `getAllPayments`) as pure functions of the stored
    collections and the request. The gateway's order call is a parameter (the
    order id it returns, or none when it fails) and so is the keyed HMAC-SHA256
    of the signed text. */
module PaymentHandlers {
  import opened Common
  import opened InvitationModel
  import opened StoreInvariants
  import TM = TemplateModel
  import CM = CategoryModel
  import RM = RsvpModel
  import UM = UserModel
  import PM = PaymentModel

  /** What `createOrder` answers: the gateway's order id, the amount in paise
      and the currency. */
  datatype OrderReply = OrderReply(orderId: string, amount: int, currency: string)

  /** The template `populate('template')` leaves on the invitation: the stored
      one, or none when the invitation has none or it has been deleted. */
  function Populated(ts: map<Id, TM.Template>, inv: Invitation): (r: Option<TM.Template>)
    ensures r.Some? <==> inv.template.Some? && inv.template.value in ts
    ensures r.Some? ==> r.value == ts[inv.template.value]
  {
    if inv.template.Some? && inv.template.value in ts then Some(ts[inv.template.value]) else None
  }

  /** The reply of `createOrder`: 404 for an unknown invitation, 403 for
      another user's, 400 for one already paid or with nothing to charge, and
      500 when the gateway refuses the order; otherwise the order for the
      amount `PM.OrderAmount` fixes. */
  function OrderReplyOf(invs: map<Id, Invitation>, ts: map<Id, TM.Template>, caller: Id, id: Id,
                        gatewayOrder: Option<string>): (r: Result<OrderReply>)
    ensures id !in invs ==> r == Err(NotFound)
    ensures id in invs && invs[id].user != caller ==> r == Err(Forbidden)
    ensures id in invs && invs[id].user == caller && invs[id].isPaid ==> r == Err(BadRequest)
    ensures id in invs && invs[id].user == caller && !invs[id].isPaid ==>
              var amount := PM.OrderAmount(invs[id], Populated(ts, invs[id]));
              && (amount.Err? ==> r == Err(BadRequest))
              && (amount.Ok? && gatewayOrder.None? ==> r == Err(ServerError))
              && (amount.Ok? && gatewayOrder.Some? ==> r == Ok(OrderReply(gatewayOrder.value, amount.value, "INR")))
    ensures r.Ok? ==> r.value.currency == "INR" && r.value.amount % 100 == 0
  {
    if id !in invs then Err(NotFound)
    else if invs[id].user != caller then Err(Forbidden)
    else if invs[id].isPaid then Err(BadRequest)
    else match PM.OrderAmount(invs[id], Populated(ts, invs[id]))
      case Err(f) => Err(f)
      case Ok(amount) =>
        PM.OrderAmountInRupees(invs[id], Populated(ts, invs[id]));
        if gatewayOrder.None? then Err(ServerError) else Ok(OrderReply(gatewayOrder.value, amount, "INR"))
  }

  /** The record an accepted order adds, with the amount stored in rupees. */
  function OrderRecord(caller: Id, id: Id, reply: OrderReply): (p: PM.Payment)
    ensures p.user == caller && p.invitation == id && p.orderId == reply.orderId
    ensures reply.amount % 100 == 0 ==> p.amount * 100 == reply.amount
    ensures p.status == PM.Created
  {
    PM.NewPayment(caller, id, reply.orderId, reply.amount / 100)
  }

  /** A new payment record changes no invitation's link. */
  lemma AppendPaymentKeepsOk(invs: map<Id, Invitation>, rsvps: seq<RM.Rsvp>, payments: seq<PM.Payment>,
                             nextId: nat, p: PM.Payment)
    requires InvitationsOk(invs, rsvps, payments, nextId)
    ensures InvitationsOk(invs, rsvps, payments + [p], nextId)
  {
    forall id | id in invs
      ensures InvitationOk(invs[id], id, rsvps, payments + [p])
    {
      assert InvitationOk(invs[id], id, rsvps, payments);
    }
  }

  /** The text the signature covers: the order id, `|`, and the payment id as
      the concatenation renders it. */
  function SignedText(orderId: string, paymentId: Option<string>): string {
    PM.SignedBody(orderId, PM.FieldText(paymentId))
  }

  /** The invitation `verifyPayment` saves: paid, linked to the payment, and
      passed through the pre-save hook. */
  function MarkedPaid(inv: Invitation, k: nat): (r: Invitation)
    ensures r.isPaid && r.payment == Some(k)
    ensures r.(isPaid := inv.isPaid, payment := inv.payment, expiresAt := inv.expiresAt) == inv
    ensures Saved(inv) ==> r == inv.(isPaid := true, payment := Some(k))
  {
    WithDefaultExpiry(inv.(isPaid := true, payment := Some(k)))
  }

  /** The reply of `verifyPayment`, given the expected signature: 404 when no
      record has the order id; 400 when the signature presented differs; the
      persistence error when the order's invitation is gone; otherwise the
      invitation, now paid. The caller is not consulted. */
  function VerifyReply(invs: map<Id, Invitation>, payments: seq<PM.Payment>, orderId: string,
                       signature: Option<string>, expected: string): (r: Result<Invitation>)
    ensures PM.FindOrder(payments, orderId).None? ==> r == Err(NotFound)
    ensures PM.FindOrder(payments, orderId).Some? ==>
              var k := PM.FindOrder(payments, orderId).value;
              && (signature != Some(expected) ==> r == Err(BadRequest))
              && (signature == Some(expected) && payments[k].invitation !in invs ==> r == Err(Crash))
              && (signature == Some(expected) && payments[k].invitation in invs ==>
                    r == Ok(MarkedPaid(invs[payments[k].invitation], k)))
  {
    match PM.FindOrder(payments, orderId)
    case None => Err(NotFound)
    case Some(k) =>
      if signature != Some(expected) then Err(BadRequest)
      else if payments[k].invitation !in invs then Err(Crash)
      else Ok(MarkedPaid(invs[payments[k].invitation], k))
  }

  /** The payments after a verification: the order's first record rewritten by
      `PM.Verified`, whatever the outcome once it is found. */
  function PaymentsAfterVerify(payments: seq<PM.Payment>, orderId: string, paymentId: Option<string>,
                               signature: Option<string>, expected: string): (ps: seq<PM.Payment>)
    ensures |ps| == |payments|
    ensures PM.FindOrder(payments, orderId).None? ==> ps == payments
    ensures PM.FindOrder(payments, orderId).Some? ==>
              var k := PM.FindOrder(payments, orderId).value;
              ps == payments[k := PM.Verified(payments[k], paymentId, signature, expected)]
  {
    match PM.FindOrder(payments, orderId)
    case None => payments
    case Some(k) => payments[k := PM.Verified(payments[k], paymentId, signature, expected)]
  }

  /** Rewriting a payment record keeps its invitation, so every link stays
      right. */
  lemma RewritePaymentKeepsOk(invs: map<Id, Invitation>, rsvps: seq<RM.Rsvp>, payments: seq<PM.Payment>,
                              nextId: nat, k: nat, p: PM.Payment)
    requires InvitationsOk(invs, rsvps, payments, nextId)
    requires k < |payments| && p.invitation == payments[k].invitation
    ensures InvitationsOk(invs, rsvps, payments[k := p], nextId)
  {
    forall id | id in invs
      ensures InvitationOk(invs[id], id, rsvps, payments[k := p])
    {
      assert InvitationOk(invs[id], id, rsvps, payments);
    }
  }

  /** A verification keeps the store in order: the rewritten record keeps its
      invitation, and the invitation it marks paid is linked to a record of
      its own. */
  lemma VerifyKeepsOk(invs: map<Id, Invitation>, rsvps: seq<RM.Rsvp>, payments: seq<PM.Payment>,
                      ts: map<Id, TM.Template>, cs: map<Id, CM.Category>, us: map<Id, UM.User>, nextId: nat,
                      orderId: string, paymentId: Option<string>, signature: Option<string>, expected: string)
    requires StoreOk(invs, rsvps, payments, ts, cs, us, nextId)
    ensures var ps := PaymentsAfterVerify(payments, orderId, paymentId, signature, expected);
            var r := VerifyReply(invs, payments, orderId, signature, expected);
            && (r.Err? ==> StoreOk(invs, rsvps, ps, ts, cs, us, nextId))
            && (r.Ok? ==>
                  var k := PM.FindOrder(payments, orderId).value;
                  StoreOk(invs[payments[k].invitation := r.value], rsvps, ps, ts, cs, us, nextId))
  {
    var ps := PaymentsAfterVerify(payments, orderId, paymentId, signature, expected);
    match PM.FindOrder(payments, orderId)
    case None =>
    case Some(k) =>
      RewritePaymentKeepsOk(invs, rsvps, payments, nextId, k, ps[k]);
      var r := VerifyReply(invs, payments, orderId, signature, expected);
      if r.Ok? {
        var id := payments[k].invitation;
        assert InvitationOk(invs[id], id, rsvps, payments);
        InvitationsOkPut(invs, rsvps, ps, nextId, id, r.value);
      }
  }

  /** The revenue moves by the order's amount at most: a captured record
      counts once whatever happened to it before, and a refused signature
      takes a captured record out of the total. */
  lemma VerifyRevenue(payments: seq<PM.Payment>, orderId: string, paymentId: Option<string>,
                      signature: Option<string>, expected: string)
    requires PM.FindOrder(payments, orderId).Some?
    ensures var k := PM.FindOrder(payments, orderId).value;
            PM.Revenue(PaymentsAfterVerify(payments, orderId, paymentId, signature, expected))
            == PM.Revenue(payments) - PM.CapturedAmount(payments[k])
               + (if signature == Some(expected) then payments[k].amount else 0)
  {
    var k := PM.FindOrder(payments, orderId).value;
    PM.RevenueUpdate(payments, k, PM.Verified(payments[k], paymentId, signature, expected));
  }

  /** `getMyPayments`: the caller's captured payments, newest first: the i-th
      listed is the one at the caller's i-th captured position from the end. */
  function MyPayments(payments: seq<PM.Payment>, caller: Id): (r: seq<PM.Payment>)
    ensures forall p :: p in r <==> p in payments && p.status == PM.Captured && p.user == caller
    ensures |r| == |PM.CapturedPositions(payments, caller)|
    ensures var ks := PM.CapturedPositions(payments, caller);
            forall i :: 0 <= i < |r| ==> r[i] == payments[ks[|ks| - 1 - i]]
  {
    var mine := PM.CapturedOf(payments, caller);
    assert forall p :: p in Reverse(mine) <==> p in mine by {
      forall p | p in mine ensures p in Reverse(mine) {
        var i :| 0 <= i < |mine| && mine[i] == p;
        assert Reverse(mine)[|mine| - 1 - i] == p;
      }
    }
    PM.CapturedOfOrder(payments, caller);
    Reverse(mine)
  }
}
