/** The Payment schema and the pure rules of the payment handlers: the amount an
    order is raised for, the text the signature covers, the status transition of
    a verification, and the captured-payment reports with their revenue total. */
module PaymentModel {
  import opened Common
  import opened Text
  import opened InvitationModel
  import opened TemplateModel

  datatype PaymentStatus = Created | Captured | Failed

  /** `amount` is in rupees; `orderId`, `paymentId` and `signature` are the
      gateway's identifiers, as text. */
  datatype Payment = Payment(user: Id, invitation: Id, orderId: string,
                             paymentId: Option<string>, signature: Option<string>,
                             amount: int, currency: string, status: PaymentStatus)

  /** The record `createOrder` inserts: no gateway payment yet, currency INR. */
  function NewPayment(user: Id, invitation: Id, orderId: string, amount: int): (p: Payment)
    ensures p.user == user && p.invitation == invitation && p.orderId == orderId
    ensures p.amount == amount && p.currency == "INR" && p.status == Created
    ensures p.paymentId.None? && p.signature.None?
  {
    Payment(user, invitation, orderId, None, None, amount, "INR", Created)
  }

  /** The amount, in paise, that `createOrder` asks the gateway for. With a
      template still in the store the price is that template's current price
      (the invitation's own `price` is not consulted) and a free template is
      refused; without one the invitation's stored price must be positive. */
  function OrderAmount(inv: Invitation, template: Option<Template>): (r: Result<int>)
    ensures template.Some? ==> (r.Ok? <==> template.value.isPremium)
    ensures template.Some? && r.Ok? ==> r.value == template.value.price * 100
    ensures template.None? ==> (r.Ok? <==> inv.price > 0)
    ensures template.None? && r.Ok? ==> r.value == inv.price * 100
    ensures r.Err? ==> r.failure == BadRequest
  {
    match template
    case Some(t) => if !t.isPremium then Err(BadRequest) else Ok(t.price * 100)
    case None => if inv.price <= 0 then Err(BadRequest) else Ok(inv.price * 100)
  }

  /** Storing `amount / 100` loses nothing: the recorded rupees times 100 are
      the paise charged, and a scratch design is charged exactly its price. */
  lemma OrderAmountInRupees(inv: Invitation, template: Option<Template>)
    requires OrderAmount(inv, template).Ok?
    ensures OrderAmount(inv, template).value % 100 == 0
    ensures OrderAmount(inv, template).value / 100 == (if template.Some? then template.value.price else inv.price)
    ensures template.None? ==> OrderAmount(inv, template).value / 100 > 0
  {
  }

  /** Nothing in the template branch requires a positive amount: a premium
      template whose price reads back as 0 is ordered for 0 paise. */
  lemma PremiumAtZeroOrdersZero(inv: Invitation, t: Template)
    requires t.isPremium && t.price == 0
    ensures OrderAmount(inv, Some(t)) == Ok(0)
  {
  }

  /** The text the gateway signs: `order_id + '|' + payment_id`. */
  function SignedBody(orderId: string, paymentId: string): (body: string)
    ensures |body| == |orderId| + 1 + |paymentId|
    ensures body[|orderId|] == '|'
  {
    orderId + "|" + paymentId
  }

  /** The position of the first `c` in `s`. */
  function IndexOf(s: string, c: char): (k: nat)
    requires c in s
    ensures k < |s| && s[k] == c
    ensures forall i :: 0 <= i < k ==> s[i] != c
  {
    if s[0] == c then 0 else 1 + IndexOf(s[1..], c)
  }

  /** The signed text determines the pair as long as order ids hold no `|`, as
      the gateway's never do: a signature for one payment cannot be replayed
      for another order. */
  lemma SignedBodyInjective(o1: string, p1: string, o2: string, p2: string)
    requires '|' !in o1 && '|' !in o2
    requires SignedBody(o1, p1) == SignedBody(o2, p2)
    ensures o1 == o2 && p1 == p2
  {
    var b := SignedBody(o1, p1);
    FirstBarIsSeparator(o1, p1);
    FirstBarIsSeparator(o2, p2);
    assert o1 == b[..|o1|] == o2;
    assert p1 == b[|o1| + 1..] == p2;
  }

  /** In the signed text of an order id without `|`, the first `|` is the separator. */
  lemma FirstBarIsSeparator(orderId: string, paymentId: string)
    requires '|' !in orderId
    ensures IndexOf(SignedBody(orderId, paymentId), '|') == |orderId|
  {
    var b := SignedBody(orderId, paymentId);
    assert forall i :: 0 <= i < |orderId| ==> b[i] == orderId[i] && b[i] != '|';
  }

  /** A request field as the string concatenation renders it: an absent one
      reads "undefined". */
  function FieldText(field: Option<string>): (t: string)
    ensures field.Some? ==> t == field.value
    ensures field.None? ==> t == "undefined"
  {
    if field.Some? then field.value else "undefined"
  }

  /** A verification: the record is marked failed when the signature presented
      is not the expected one, and otherwise takes the gateway ids and is marked
      captured. Its previous status is not consulted, and the record keeps its
      user, invitation, order and amount. */
  function Verified(p: Payment, paymentId: Option<string>, signature: Option<string>, expected: string): (q: Payment)
    ensures signature != Some(expected) ==> q == p.(status := Failed)
    ensures signature == Some(expected) ==>
              q == p.(paymentId := paymentId, signature := signature, status := Captured)
    ensures q.user == p.user && q.invitation == p.invitation && q.orderId == p.orderId && q.amount == p.amount
  {
    if signature != Some(expected) then p.(status := Failed)
    else p.(paymentId := paymentId, signature := signature, status := Captured)
  }

  /** A later verification with a wrong signature turns a captured payment into
      a failed one, and a later correct one captures a failed payment again. */
  lemma StatusNotChecked(p: Payment, paymentId: Option<string>, signature: Option<string>, expected: string)
    ensures (Verified(p, paymentId, signature, expected).status == Captured) <==> signature == Some(expected)
    ensures Verified(p, paymentId, signature, expected).(paymentId := p.paymentId, signature := p.signature, status := p.status) == p
  {
  }

  /** `Payment.findOne({ razorpay_order_id })`: the first record of the order. */
  function FindOrder(ps: seq<Payment>, orderId: string): (k: Option<nat>)
    ensures k.Some? ==> k.value < |ps| && ps[k.value].orderId == orderId
    ensures k.Some? ==> forall i :: 0 <= i < k.value ==> ps[i].orderId != orderId
    ensures k.None? ==> forall i :: 0 <= i < |ps| ==> ps[i].orderId != orderId
  {
    if ps == [] then None
    else if ps[0].orderId == orderId then Some(0)
    else match FindOrder(ps[1..], orderId)
      case None => None
      case Some(k) => Some(k + 1)
  }

  /** The captured payments, in creation order. */
  function CapturedOnly(ps: seq<Payment>): (r: seq<Payment>)
    ensures |r| <= |ps|
    ensures forall p :: p in r <==> p in ps && p.status == Captured
  {
    if ps == [] then []
    else (if ps[0].status == Captured then [ps[0]] else []) + CapturedOnly(ps[1..])
  }

  /** A new payment joins the captured list at its end exactly when it is
      captured; with `CapturedOnly([]) == []` this fixes the list, order and
      multiplicity included. */
  lemma {:induction false} CapturedOnlyAppend(ps: seq<Payment>, p: Payment)
    ensures CapturedOnly(ps + [p]) == CapturedOnly(ps) + (if p.status == Captured then [p] else [])
  {
    if ps == [] {
      assert [p][1..] == [];
    } else {
      assert (ps + [p])[1..] == ps[1..] + [p];
      CapturedOnlyAppend(ps[1..], p);
      var head := if ps[0].status == Captured then [ps[0]] else [];
      AppendStep(head, CapturedOnly(ps[1..]), if p.status == Captured then [p] else [],
        CapturedOnly(ps[1..] + [p]), CapturedOnly(ps), CapturedOnly(ps + [p]));
    }
  }

  /** The inductive step of `CapturedOnlyAppend` on plain sequences. */
  lemma AppendStep<T>(head: seq<T>, tail: seq<T>, extra: seq<T>, tail': seq<T>, whole: seq<T>, whole': seq<T>)
    requires tail' == tail + extra && whole == head + tail && whole' == head + tail'
    ensures whole' == whole + extra
  {
  }

  /** The captured payments of one user, in creation order. */
  function CapturedOf(ps: seq<Payment>, user: Id): (r: seq<Payment>)
    ensures |r| <= |ps|
    ensures forall p :: p in r <==> p in ps && p.status == Captured && p.user == user
  {
    if ps == [] then []
    else
      var last := ps[|ps| - 1];
      assert forall p :: p in ps <==> p in ps[..|ps| - 1] || p == last by {
        assert ps == ps[..|ps| - 1] + [last];
      }
      CapturedOf(ps[..|ps| - 1], user) + (if last.status == Captured && last.user == user then [last] else [])
  }

  /** The positions of one user's captured payments: only such positions,
      ascending, and (`CapturedPositionsComplete`) all of them. */
  function CapturedPositions(ps: seq<Payment>, user: Id): (ks: seq<nat>)
    ensures forall i :: 0 <= i < |ks| ==> ks[i] < |ps| && ps[ks[i]].status == Captured && ps[ks[i]].user == user
    ensures forall i, j :: 0 <= i < j < |ks| ==> ks[i] < ks[j]
  {
    if ps == [] then []
    else
      var last := ps[|ps| - 1];
      CapturedPositions(ps[..|ps| - 1], user)
      + (if last.status == Captured && last.user == user then [|ps| - 1] else [])
  }

  lemma {:induction false} CapturedPositionsComplete(ps: seq<Payment>, user: Id, k: nat)
    requires k < |ps| && ps[k].status == Captured && ps[k].user == user
    ensures k in CapturedPositions(ps, user)
  {
    if k < |ps| - 1 {
      CapturedPositionsComplete(ps[..|ps| - 1], user, k);
    }
  }

  /** `CapturedOf` keeps creation order: its i-th payment is the one at the
      i-th captured position. */
  lemma {:induction false} CapturedOfOrder(ps: seq<Payment>, user: Id)
    ensures |CapturedOf(ps, user)| == |CapturedPositions(ps, user)|
    ensures forall i :: 0 <= i < |CapturedPositions(ps, user)| ==>
              CapturedOf(ps, user)[i] == ps[CapturedPositions(ps, user)[i]]
  {
    if ps != [] {
      var pre, last := ps[..|ps| - 1], ps[|ps| - 1];
      CapturedOfOrder(pre, user);
      CapturedOfStep(ps, CapturedOf(pre, user), CapturedPositions(pre, user),
                     last.status == Captured && last.user == user,
                     CapturedOf(ps, user), CapturedPositions(ps, user));
    }
  }

  /** The step of `CapturedOfOrder` on plain sequences. */
  lemma CapturedOfStep(ps: seq<Payment>, kept: seq<Payment>, ks: seq<nat>, keep: bool, r: seq<Payment>,
                       ks': seq<nat>)
    requires ps != [] && |kept| == |ks|
    requires forall i :: 0 <= i < |ks| ==> ks[i] < |ps| - 1
    requires forall i :: 0 <= i < |kept| ==> kept[i] == ps[..|ps| - 1][ks[i]]
    requires r == kept + (if keep then [ps[|ps| - 1]] else [])
    requires ks' == ks + (if keep then [|ps| - 1] else [])
    ensures |r| == |ks'|
    ensures forall i :: 0 <= i < |ks'| ==> r[i] == ps[ks'[i]]
  {
  }

  /** The sum of the amounts, as `reduce((sum, p) => sum + p.amount, 0)` adds them. */
  function Sum(ps: seq<Payment>): int {
    if ps == [] then 0 else ps[0].amount + Sum(ps[1..])
  }

  lemma {:induction false} SumAppend(a: seq<Payment>, b: seq<Payment>)
    ensures Sum(a + b) == Sum(a) + Sum(b)
  {
    if a != [] {
      assert (a + b)[1..] == a[1..] + b;
      SumAppend(a[1..], b);
    } else {
      assert a + b == b;
    }
  }

  /** The total is the same in whichever order the report lists the payments. */
  lemma {:induction false} SumReverse(ps: seq<Payment>)
    ensures Sum(Reverse(ps)) == Sum(ps)
  {
    if ps != [] {
      SumReverse(ps[1..]);
      SumAppend(Reverse(ps[1..]), [ps[0]]);
    }
  }

  /** The revenue: the sum of the captured amounts. */
  function Revenue(ps: seq<Payment>): int {
    Sum(CapturedOnly(ps))
  }

  function CapturedAmount(p: Payment): int {
    if p.status == Captured then p.amount else 0
  }

  lemma {:induction false} RevenueAppend(ps: seq<Payment>, p: Payment)
    ensures Revenue(ps + [p]) == Revenue(ps) + CapturedAmount(p)
  {
    if ps == [] {
      assert [p][1..] == [];
    } else {
      assert (ps + [p])[1..] == ps[1..] + [p];
      RevenueAppend(ps[1..], p);
      SumAppend(if ps[0].status == Captured then [ps[0]] else [], CapturedOnly(ps[1..] + [p]));
      SumAppend(if ps[0].status == Captured then [ps[0]] else [], CapturedOnly(ps[1..]));
    }
  }

  /** A new order adds nothing to the revenue, since it starts as created. */
  lemma NewOrderAddsNoRevenue(ps: seq<Payment>, user: Id, invitation: Id, orderId: string, amount: int)
    ensures Revenue(ps + [NewPayment(user, invitation, orderId, amount)]) == Revenue(ps)
  {
    RevenueAppend(ps, NewPayment(user, invitation, orderId, amount));
  }

  /** Rewriting one record changes the revenue by the difference of its
      captured amounts: capturing adds the amount once, and failing a captured
      payment takes it out again. */
  lemma {:induction false} RevenueUpdate(ps: seq<Payment>, k: nat, p: Payment)
    requires k < |ps|
    ensures Revenue(ps[k := p]) == Revenue(ps) - CapturedAmount(ps[k]) + CapturedAmount(p)
  {
    var last := |ps| - 1;
    assert ps == ps[..last] + [ps[last]];
    if k < last {
      assert ps[k := p] == ps[..last][k := p] + [ps[last]];
      RevenueUpdate(ps[..last], k, p);
      RevenueAppend(ps[..last][k := p], ps[last]);
      RevenueAppend(ps[..last], ps[last]);
    } else {
      assert ps[k := p] == ps[..last] + [p];
      RevenueAppend(ps[..last], p);
      RevenueAppend(ps[..last], ps[last]);
    }
  }

  /** The admin report: every captured payment newest first, with the revenue
      and the number of transactions. */
  datatype Report = Report(payments: seq<Payment>, totalRevenue: int, totalTransactions: nat)

  function AllPaymentsReport(ps: seq<Payment>): (r: Report)
    ensures r.payments == Reverse(CapturedOnly(ps))
    ensures r.totalRevenue == Revenue(ps)
    ensures r.totalTransactions == |r.payments|
  {
    SumReverse(CapturedOnly(ps));
    var listed := Reverse(CapturedOnly(ps));
    Report(listed, Sum(listed), |listed|)
  }

  /** The report after one more payment: a captured payment comes first in the
      listing and adds one transaction, any other payment changes neither. */
  lemma ReportAppend(ps: seq<Payment>, p: Payment)
    ensures AllPaymentsReport(ps + [p]).payments
      == (if p.status == Captured then [p] else []) + AllPaymentsReport(ps).payments
    ensures AllPaymentsReport(ps + [p]).totalTransactions
      == AllPaymentsReport(ps).totalTransactions + (if p.status == Captured then 1 else 0)
  {
    CapturedOnlyAppend(ps, p);
    var before := CapturedOnly(ps);
    if p.status == Captured {
      assert Reverse(before + [p]) == [p] + Reverse(before);
    } else {
      assert before + [] == before;
    }
  }
}
