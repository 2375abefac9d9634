/** Which journal an invoice is written to. Every message of the invoice
    controller passes two filtered handlers, one per journal; each handler's
    filter is configured with the request's payment method and the status of
    the journal it guards. */
module Routing {

  /** The custom log level at which invoices are accounted. */
  const ACCOUNT: int := 5

  /** The payment method of a charge when none is given. */
  const PAYMENT_ON_ACCOUNT: string := "room-bill"

  /** The payment method under which a bill is settled. */
  const PAYMENT_SETTLED: string := "cash"

  /** The status of an invoice, which is also the name of its journal. */
  datatype Status = Outstanding | Settled

  /** Cash and debit are paid on the spot; anything else goes on the bill. */
  function InvoiceStatus(paymentMethod: string): Status {
    if paymentMethod == "cash" || paymentMethod == "debit" then Settled else Outstanding
  }

  /** The filter in front of one journal's handler. */
  datatype InvoiceFilter = InvoiceFilter(paymentMethod: string, invoiceStatus: Status) {

    /** A message passes when it is accounted and the configured payment
        method has this journal's status. */
    predicate Accepts(levelno: int) {
      levelno == ACCOUNT && InvoiceStatus(paymentMethod) == invoiceStatus
    }
  }

  /** The journals whose filter lets a message at `levelno` through when the
      controller is configured with `paymentMethod`. */
  function Destinations(paymentMethod: string, levelno: int): (ds: set<Status>)
    ensures levelno != ACCOUNT ==> ds == {}
    ensures levelno == ACCOUNT ==> |ds| == 1
    ensures Settled in ds <==> levelno == ACCOUNT && (paymentMethod == "cash" || paymentMethod == "debit")
    ensures Outstanding in ds <==> levelno == ACCOUNT && paymentMethod != "cash" && paymentMethod != "debit"
  {
    (if InvoiceFilter(paymentMethod, Outstanding).Accepts(levelno) then {Outstanding} else {})
    + (if InvoiceFilter(paymentMethod, Settled).Accepts(levelno) then {Settled} else {})
  }
}
