/**
 * The page the payment gateway sends the donor back to. It reads the payment
 * id from the address, asks the server to verify it once per browser
 * session, and remembers in session storage that it did.
 */
module PaymentReturn {
  import opened Wrappers
  import opened Http
  import Payments

  /** The browser's session storage. */
  class SessionStore {
    var items: map<string, string>

    constructor ()
      ensures items == map[]
    {
      items := map[];
    }
  }

  /** The session-storage key that records a verified payment id. */
  function GuardKey(pidx: string): (key: string)
    ensures |key| == |"verified_pidx_"| + |pidx| && key[|"verified_pidx_"|..] == pidx
  {
    "verified_pidx_" + pidx
  }

  /** Different payment ids have different keys. */
  lemma GuardKeyInjective(a: string, b: string)
    requires GuardKey(a) == GuardKey(b)
    ensures a == b
  {
    assert a == GuardKey(a)[|"verified_pidx_"|..];
  }

  /** `sessionStorage.getItem(key)` read as a condition: present and non-empty. */
  predicate Marked(items: map<string, string>, pidx: string) {
    GuardKey(pidx) in items && items[GuardKey(pidx)] != ""
  }

  /** The text of a reply the server refused. */
  function FailureText(message: string): (t: string)
    ensures t != ""
    ensures message != "" ==> t == message
  {
    OrElse(Some(message), "Verification failed")
  }

  /** The page's state. */
  class Page {
    var status: string
    var message: string
    var details: Option<Payments.Payment>

    constructor ()
      ensures status == "VERIFYING" && message == "" && details == None
    {
      status, message, details := "VERIFYING", "", None;
    }

    /** The effect that runs when the page opens, given the `pidx` query
        parameter and what the verify request comes to. `requested` tells
        whether the request was sent at all. */
    method Run(pidx: Option<string>, store: SessionStore, answer: Fetched<Payments.Payment>)
      returns (requested: bool)
      modifies this, store
      ensures requested <==> Given(pidx) && !Marked(old(store.items), pidx.value)
      ensures !Given(pidx) ==>
        status == "ERROR" && message == "Missing payment identifier (pidx)" && details == old(details)
      ensures Given(pidx) && Marked(old(store.items), pidx.value) ==>
        status == "COMPLETED" && message == "Payment already verified" && details == old(details)
      ensures requested && answer.Threw? ==>
        status == "ERROR" && message == OrElse(answer.message, "Network error") && details == old(details)
      ensures requested && answer.Replied? && answer.reply.Fail? ==>
        status == "ERROR" && message == FailureText(answer.reply.message) && details == old(details)
      ensures requested && answer.Replied? && answer.reply.Ok? ==>
        && status == Payments.StatusName(answer.reply.data.status) && message == "Verification complete"
        && details == Some(answer.reply.data)
        && store.items == old(store.items)[GuardKey(pidx.value) := "1"]
      ensures !(requested && answer.Replied? && answer.reply.Ok?) ==> store.items == old(store.items)
    {
      requested := false;
      if !Given(pidx) {
        status, message := "ERROR", "Missing payment identifier (pidx)";
        return;
      }
      var key := GuardKey(pidx.value);
      if key in store.items && store.items[key] != "" {
        status, message := "COMPLETED", "Payment already verified";
        return;
      }
      requested := true;
      match answer {
        case Threw(m) =>
          status, message := "ERROR", OrElse(m, "Network error");
        case Replied(Fail(_, m)) =>
          status, message := "ERROR", FailureText(m);
        case Replied(Ok(_, _, p)) =>
          details := Some(p);
          status := Payments.StatusName(p.status);
          message := "Verification complete";
          store.items := store.items[key := "1"];
      }
    }
  }

  /** A donor whose payment the gateway still reports as pending opens the
      return page twice in one session: the first visit asks the server and
      shows PENDING, the second asks nobody and shows COMPLETED, while the
      stored payment is still PENDING. */
  method ReturnTwiceWhilePending(ledger: Payments.PaymentLedger, pidx: string, stillPending: Payments.Lookup)
    returns (first: Page, second: Page, askedAgain: bool)
    requires ledger.Valid() && pidx != "" && pidx in ledger.payments
    requires ledger.payments[pidx].status == Payments.Initiated
    requires Payments.MapGatewayStatus(stillPending.status) == Payments.Pending
    modifies ledger
    ensures ledger.Valid() && pidx in ledger.payments && ledger.payments[pidx].status == Payments.Pending
    ensures first.status == "PENDING"
    ensures !askedAgain && second.status == "COMPLETED"
  {
    var store := new SessionStore();
    var r, lookedUp := ledger.Verify(Some(pidx), None, Payments.LookupAccepted(stillPending));
    first := new Page();
    var asked := first.Run(Some(pidx), store, Replied(r));
    second := new Page();
    askedAgain := second.Run(Some(pidx), store, Threw(None));
  }
}
