/**
 * Donations through the Khalti e-payment gateway: start a payment, then
 * confirm it (from the return page or from the gateway's callback) by asking
 * the gateway for its status. The gateway's answers are inputs; the payment
 * table is keyed by the gateway's payment id `pidx`.
 */
module Payments {
  import opened Wrappers
  import opened Http
  import Text
  import Auth

  datatype PaymentStatus = Initiated | Pending | Completed | Failed | Refunded

  /** The status as the store's enumeration spells it. */
  function StatusName(s: PaymentStatus): (name: string)
    ensures name != ""
  {
    match s
    case Initiated => "INITIATED"
    case Pending => "PENDING"
    case Completed => "COMPLETED"
    case Failed => "FAILED"
    case Refunded => "REFUNDED"
  }

  /** A payment the gateway has settled one way or the other. */
  predicate IsTerminal(s: PaymentStatus) {
    s == Completed || s == Failed || s == Refunded
  }

  /** The fields of the gateway's lookup answer that the handler reads. */
  datatype Lookup = Lookup(status: Option<string>, transactionId: Option<string>)

  /** A value of the payment's free-form metadata object. */
  datatype Meta = Null | TextValue(s: string) | RawLookup(data: Lookup)

  datatype Payment = Payment(
    pidx: string, status: PaymentStatus, amountPaisa: nat, userId: Option<nat>,
    opportunityId: Option<int>, transactionId: Option<string>, metadata: map<string, Meta>)

  /** What the call to the gateway's initiate endpoint came to: the call or
      the reading of its body threw, an error status with its `detail`, or
      the new payment id and the page to send the donor to. */
  datatype InitiateAnswer =
    | InitiateThrew
    | InitiateRejected(httpStatus: nat, detail: Option<string>)
    | InitiateAccepted(pidx: string, paymentUrl: string)

  /** What the call to the gateway's lookup endpoint came to. */
  datatype LookupAnswer =
    | LookupThrew
    | LookupRejected(httpStatus: nat, detail: Option<string>)
    | LookupAccepted(data: Lookup)

  /** The body of the request to the initiate endpoint. */
  datatype GatewayRequest = GatewayRequest(
    returnUrl: string, websiteUrl: string, amount: nat, purchaseOrderId: string,
    purchaseOrderName: string, customerName: string, customerEmail: string)

  datatype Checkout = Checkout(pidx: string, paymentUrl: string)

  /** The gateway's status word, in any letter case, mapped onto the store's
      statuses; anything unrecognised, or no status at all, is pending. */
  function MapGatewayStatus(status: Option<string>): (r: PaymentStatus)
    ensures r != Initiated
    ensures r != Pending ==> Given(status) && Text.ToUpper(status.value) == StatusName(r)
    ensures Given(status) && Text.ToUpper(status.value) == "COMPLETED" ==> r == Completed
    ensures Given(status) && Text.ToUpper(status.value) == "FAILED" ==> r == Failed
    ensures Given(status) && Text.ToUpper(status.value) == "REFUNDED" ==> r == Refunded
  {
    var word := Text.ToUpper(OrElse(status, ""));
    if word == "COMPLETED" then Completed
    else if word == "FAILED" then Failed
    else if word == "REFUNDED" then Refunded
    else Pending
  }

  /** Every status a lookup can produce is recognised from its own name,
      written in capitals or in small letters. */
  lemma MapGatewayStatusNames(s: PaymentStatus)
    requires s != Initiated
    ensures MapGatewayStatus(Some(StatusName(s))) == s
    ensures MapGatewayStatus(Some(Text.ToLower(StatusName(s)))) == s
  {
    Text.UpperOfUpper(StatusName(s));
    Text.UpperOfLower(StatusName(s));
  }

  /** The amount in paisa: whole rupees times one hundred, refused unless positive. */
  function ToPaisa(npr: int): (r: Option<nat>)
    ensures r.Some? <==> npr > 0
    ensures r.Some? ==> r.value == npr * 100 && r.value % 100 == 0
  {
    if npr * 100 <= 0 then None else Some(npr * 100)
  }

  /** `x ? Number(x) : null` and `(req.user && req.user.id) ? req.user.id : null`: zero is null. */
  function NonZero(v: Option<int>): (r: Option<int>)
    ensures r.Some? <==> v.Some? && v.value != 0
    ensures r.Some? ==> r == v
  {
    if v.Some? && v.value != 0 then v else None
  }

  function CallerId(caller: Option<Auth.Claims>): (r: Option<nat>)
    ensures r.Some? <==> caller.Some? && caller.value.id != 0
    ensures r.Some? ==> r.value == caller.value.id
  {
    if caller.Some? && caller.value.id != 0 then Some(caller.value.id) else None
  }

  /** The gateway request for a donation: the donor comes back to the site's
      return page, and absent names fall back to the defaults. */
  function RequestFor(websiteUrl: string, amountPaisa: nat, now: nat,
                      purchaseOrderName: Option<string>, name: Option<string>, email: Option<string>)
    : (q: GatewayRequest)
    ensures q.returnUrl == websiteUrl + "/payment-return" && q.websiteUrl == websiteUrl
    ensures q.amount == amountPaisa && q.purchaseOrderId == "order_" + Text.NatToString(now)
    ensures q.purchaseOrderName != "" && q.customerName != "" && q.customerEmail != ""
    ensures Given(purchaseOrderName) ==> q.purchaseOrderName == purchaseOrderName.value
  {
    GatewayRequest(
      websiteUrl + "/payment-return", websiteUrl, amountPaisa, "order_" + Text.NatToString(now),
      OrElse(purchaseOrderName, "Volunteer Donation"),
      OrElse(name, "Donor"), OrElse(email, "donor@example.com"))
  }

  /** The row a successful initiation stores. */
  function NewPayment(pidx: string, amountPaisa: nat, caller: Option<Auth.Claims>,
                      opportunityId: Option<int>, name: Option<string>, email: Option<string>,
                      request: GatewayRequest): (p: Payment)
    ensures p.pidx == pidx && p.status == Initiated && p.amountPaisa == amountPaisa
    ensures p.transactionId.None?
    ensures p.metadata.Keys == {"name", "email", "orderId", "orderName"}
    ensures p.metadata["orderId"] == TextValue(request.purchaseOrderId)
  {
    Payment(pidx, Initiated, amountPaisa, CallerId(caller), NonZero(opportunityId), None,
      map["name" := NullOr(name), "email" := NullOr(email),
          "orderId" := TextValue(request.purchaseOrderId), "orderName" := TextValue(request.purchaseOrderName)])
  }

  function NullOr(field: Option<string>): Meta {
    match OrNull(field)
    case None => Null
    case Some(s) => TextValue(s)
  }

  /** The body's pidx when it is truthy, otherwise the query string's. */
  function PidxOf(bodyPidx: Option<string>, queryPidx: Option<string>): (r: Option<string>)
    ensures Given(bodyPidx) ==> r == bodyPidx
    ensures !Given(bodyPidx) ==> r == queryPidx
  {
    if Given(bodyPidx) then bodyPidx else queryPidx
  }

  /** The payment after a successful lookup: the mapped status, the
      transaction id or null, and the raw answer added to the metadata. */
  function Recorded(p: Payment, data: Lookup): (q: Payment)
    ensures q.pidx == p.pidx && q.amountPaisa == p.amountPaisa
    ensures q.userId == p.userId && q.opportunityId == p.opportunityId
    ensures q.status == MapGatewayStatus(data.status) && q.status != Initiated
    ensures q.transactionId == OrNull(data.transactionId)
    ensures q.metadata.Keys == p.metadata.Keys + {"rawVerify"}
    ensures forall k | k in p.metadata && k != "rawVerify" :: q.metadata[k] == p.metadata[k]
    ensures q.metadata["rawVerify"] == RawLookup(data)
  {
    p.(status := MapGatewayStatus(data.status),
       transactionId := OrNull(data.transactionId),
       metadata := p.metadata["rawVerify" := RawLookup(data)])
  }

  /** Everything a verification produces: the reply, the new table, and the
      pidx sent to the lookup endpoint when the gateway was asked at all. */
  datatype VerifyOutcome = VerifyOutcome(reply: Reply<Payment>, payments: map<string, Payment>, lookedUp: Option<string>)

  /** Verification of the payment named by `pidx`, as a function of the table
      and of the gateway's answer to the lookup. */
  function VerifyStep(payments: map<string, Payment>, pidx: Option<string>, answer: LookupAnswer): (o: VerifyOutcome)
    ensures o.payments.Keys == payments.Keys
    ensures o.lookedUp.Some? <==>
      Given(pidx) && pidx.value in payments && !IsTerminal(payments[pidx.value].status)
    ensures o.lookedUp.Some? ==> o.lookedUp == pidx
    ensures forall k | k in payments && (o.lookedUp.None? || k != pidx.value) :: o.payments[k] == payments[k]
    ensures o.reply.Ok? ==> Given(pidx) && pidx.value in payments && o.payments[pidx.value] == o.reply.data
    ensures !Given(pidx) ==> o.reply == Fail(400, "pidx is required")
    ensures Given(pidx) && pidx.value !in payments ==> o.reply == Fail(404, "Payment not found")
    ensures o.lookedUp.Some? && answer.LookupThrew? ==>
      o.reply == Fail(500, "Payment verification failed") && o.payments == payments
    ensures o.lookedUp.Some? && answer.LookupRejected? ==>
      o.reply == Fail(answer.httpStatus, OrElse(answer.detail, "Failed to verify payment")) && o.payments == payments
    ensures o.lookedUp.Some? && answer.LookupAccepted? ==>
      var q := Recorded(payments[pidx.value], answer.data);
      o.reply == Ok(200, "", q) && o.payments == payments[pidx.value := q]
    ensures Given(pidx) && pidx.value in payments && IsTerminal(payments[pidx.value].status) ==>
      o.reply == Ok(200, "Payment already verified", payments[pidx.value]) && o.payments == payments
  {
    if !Given(pidx) then VerifyOutcome(Fail(400, "pidx is required"), payments, None)
    else if pidx.value !in payments then VerifyOutcome(Fail(404, "Payment not found"), payments, None)
    else
      var p := payments[pidx.value];
      if IsTerminal(p.status) then VerifyOutcome(Ok(200, "Payment already verified", p), payments, None)
      else match answer
        case LookupThrew =>
          VerifyOutcome(Fail(500, "Payment verification failed"), payments, pidx)
        case LookupRejected(code, detail) =>
          VerifyOutcome(Fail(code, OrElse(detail, "Failed to verify payment")), payments, pidx)
        case LookupAccepted(data) =>
          var q := Recorded(p, data);
          VerifyOutcome(Ok(200, "", q), payments[pidx.value := q], pidx)
  }

  /** A settled payment is final: verifying it again asks nobody, changes
      nothing and reports the stored row. */
  lemma TerminalIsAbsorbing(payments: map<string, Payment>, pidx: string, answer: LookupAnswer)
    requires pidx != "" && pidx in payments && IsTerminal(payments[pidx].status)
    ensures VerifyStep(payments, Some(pidx), answer) ==
      VerifyOutcome(Ok(200, "Payment already verified", payments[pidx]), payments, None)
  {
  }

  /** A status moves only forward: once a lookup has run the payment is never
      back at INITIATED, and a settled status never changes. */
  lemma {:induction false} StatusMovesForward(payments: map<string, Payment>, pidx: string, answer: LookupAnswer)
    requires pidx in payments
    ensures var after := VerifyStep(payments, Some(pidx), answer).payments[pidx].status;
      var before := payments[pidx].status;
      && (IsTerminal(before) ==> after == before)
      && (after == Initiated ==> before == Initiated)
  {
  }

  /** A payment becomes COMPLETED only when the gateway's lookup says so. */
  lemma CompletedOnlyFromGateway(payments: map<string, Payment>, pidx: string, answer: LookupAnswer)
    requires pidx in payments && payments[pidx].status != Completed
    requires VerifyStep(payments, Some(pidx), answer).payments[pidx].status == Completed
    ensures answer.LookupAccepted? && Given(answer.data.status)
    ensures Text.ToUpper(answer.data.status.value) == "COMPLETED"
  {
  }

  /** Verifying twice with the same gateway answer leaves the table as one
      verification left it. */
  lemma {:induction false} VerifyIdempotent(payments: map<string, Payment>, pidx: Option<string>, answer: LookupAnswer)
    ensures var once := VerifyStep(payments, pidx, answer).payments;
      VerifyStep(once, pidx, answer).payments == once
  {
    var once := VerifyStep(payments, pidx, answer).payments;
    if Given(pidx) && pidx.value in payments && !IsTerminal(payments[pidx.value].status) && answer.LookupAccepted? {
      var q := Recorded(payments[pidx.value], answer.data);
      assert once[pidx.value] == q;
      if !IsTerminal(q.status) {
        assert Recorded(q, answer.data) == q;
        assert once[pidx.value := q] == once;
      }
    }
  }

  /** Whatever was in a payment's metadata before a verification is still
      there afterwards, except the previous raw lookup answer. */
  lemma MetadataKept(payments: map<string, Payment>, pidx: string, answer: LookupAnswer)
    requires pidx in payments
    ensures var m := VerifyStep(payments, Some(pidx), answer).payments[pidx].metadata;
      payments[pidx].metadata.Keys <= m.Keys &&
      forall k | k in payments[pidx].metadata && k != "rawVerify" :: m[k] == payments[pidx].metadata[k]
  {
  }

  /** The payment table. */
  class PaymentLedger {
    var payments: map<string, Payment>

    /** Each row is stored under its own pidx. */
    ghost predicate Valid()
      reads this
    {
      forall k | k in payments :: payments[k].pidx == k
    }

    constructor ()
      ensures Valid() && payments == map[]
    {
      payments := map[];
    }

    /** POST /payments/initiate. `amountNpr` is a whole number of rupees;
        `answer` is what the gateway replies to `request` when it is asked. */
    method Initiate(caller: Option<Auth.Claims>, amountNpr: Option<int>, opportunityId: Option<int>,
                    name: Option<string>, email: Option<string>, purchaseOrderName: Option<string>,
                    now: nat, websiteUrl: string, answer: InitiateAnswer)
      returns (r: Reply<Checkout>, request: Option<GatewayRequest>)
      requires Valid()
      modifies this
      ensures Valid()
      ensures (amountNpr.None? || amountNpr.value == 0) ==>
        r == Fail(400, "amountNpr is required") && request.None? && payments == old(payments)
      ensures amountNpr.Some? && amountNpr.value < 0 ==>
        r == Fail(500, "Payment initiation failed") && request.None? && payments == old(payments)
      ensures amountNpr.Some? && amountNpr.value > 0 ==>
        request == Some(RequestFor(websiteUrl, amountNpr.value * 100, now, purchaseOrderName, name, email))
      ensures answer.InitiateThrew? && request.Some? ==>
        r == Fail(500, "Payment initiation failed") && payments == old(payments)
      ensures answer.InitiateRejected? && request.Some? ==>
        r == Fail(answer.httpStatus, OrElse(answer.detail, "Failed to initiate payment")) && payments == old(payments)
      ensures answer.InitiateAccepted? && request.Some? && answer.pidx in old(payments) ==>
        r == Fail(500, "Payment initiation failed") && payments == old(payments)
      ensures answer.InitiateAccepted? && request.Some? && answer.pidx !in old(payments) ==>
        && payments == old(payments)[answer.pidx :=
             NewPayment(answer.pidx, request.value.amount, caller, opportunityId, name, email, request.value)]
        && r == Ok(200, "", Checkout(answer.pidx, answer.paymentUrl))
    {
      request := None;
      if amountNpr.None? || amountNpr.value == 0 {
        return Fail(400, "amountNpr is required"), None;
      }
      var amountPaisa := ToPaisa(amountNpr.value);
      if amountPaisa.None? {
        return Fail(500, "Payment initiation failed"), None;
      }
      var q := RequestFor(websiteUrl, amountPaisa.value, now, purchaseOrderName, name, email);
      request := Some(q);
      match answer {
        case InitiateThrew =>
          r := Fail(500, "Payment initiation failed");
        case InitiateRejected(code, detail) =>
          r := Fail(code, OrElse(detail, "Failed to initiate payment"));
        case InitiateAccepted(pidx, paymentUrl) =>
          if pidx in payments {
            r := Fail(500, "Payment initiation failed");
          } else {
            payments := payments[pidx := NewPayment(pidx, amountPaisa.value, caller, opportunityId, name, email, q)];
            r := Ok(200, "", Checkout(pidx, paymentUrl));
          }
      }
    }

    /** POST /payments/verify, with the pidx from the body or the query string. */
    method Verify(bodyPidx: Option<string>, queryPidx: Option<string>, answer: LookupAnswer)
      returns (r: Reply<Payment>, lookedUp: Option<string>)
      requires Valid()
      modifies this
      ensures Valid()
      ensures var o := VerifyStep(old(payments), PidxOf(bodyPidx, queryPidx), answer);
        r == o.reply && payments == o.payments && lookedUp == o.lookedUp
    {
      var pidx := PidxOf(bodyPidx, queryPidx);
      lookedUp := None;
      if !Given(pidx) {
        return Fail(400, "pidx is required"), None;
      }
      if pidx.value !in payments {
        return Fail(404, "Payment not found"), None;
      }
      var p := payments[pidx.value];
      if IsTerminal(p.status) {
        return Ok(200, "Payment already verified", p), None;
      }
      lookedUp := pidx;
      match answer {
        case LookupThrew =>
          r := Fail(500, "Payment verification failed");
        case LookupRejected(code, detail) =>
          r := Fail(code, OrElse(detail, "Failed to verify payment"));
        case LookupAccepted(data) =>
          var q := Recorded(p, data);
          payments := payments[pidx.value := q];
          r := Ok(200, "", q);
      }
    }

    /** POST /payments/callback: the gateway's notification, handled exactly
        as a verification of the pidx in its body. */
    method Callback(bodyPidx: Option<string>, answer: LookupAnswer)
      returns (r: Reply<Payment>, lookedUp: Option<string>)
      requires Valid()
      modifies this
      ensures Valid()
      ensures !Given(bodyPidx) ==>
        r == Fail(400, "pidx is required in callback") && lookedUp.None? && payments == old(payments)
      ensures Given(bodyPidx) ==> var o := VerifyStep(old(payments), bodyPidx, answer);
        r == o.reply && payments == o.payments && lookedUp == o.lookedUp
    {
      if !Given(bodyPidx) {
        return Fail(400, "pidx is required in callback"), None;
      }
      r, lookedUp := Verify(bodyPidx, bodyPidx, answer);
    }
  }

  /** A donation that the gateway settles: the new payment starts INITIATED,
      and the first verification asks the gateway and records its status. */
  method DonateThenVerify(ledger: PaymentLedger, amountNpr: nat, now: nat, websiteUrl: string,
                          pidx: string, paymentUrl: string, settled: Lookup)
    returns (started: Reply<Checkout>, verified: Reply<Payment>)
    requires ledger.Valid() && amountNpr > 0 && pidx != "" && pidx !in ledger.payments
    modifies ledger
    ensures ledger.Valid()
    ensures started == Ok(200, "", Checkout(pidx, paymentUrl))
    ensures verified.Ok? && verified.data.status == MapGatewayStatus(settled.status)
    ensures verified.data.amountPaisa == amountNpr * 100
  {
    var request;
    started, request := ledger.Initiate(None, Some(amountNpr), None, None, None, None, now, websiteUrl,
                                        InitiateAccepted(pidx, paymentUrl));
    var lookedUp;
    verified, lookedUp := ledger.Verify(Some(pidx), None, LookupAccepted(settled));
  }
}
