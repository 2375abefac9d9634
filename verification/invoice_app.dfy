/** The invoice ledger operations: charging a guest, cancelling an invoice by
    a compensating entry, requesting (and thereby settling) a guest's bill,
    and the read-only queries. Each operation is a pure function from the
    pair of journals to the new pair plus the reply the caller sees. */
module InvoiceApp {
  import opened Optional
  import opened Journal
  import opened Routing
  import opened Catalog

  /** The two journal files, oldest line first. */
  datatype Ledger = Ledger(outstanding: seq<Line>, settled: seq<Line>)

  /** Nothing already written is altered: both journals only grow at their end. */
  ghost predicate AppendOnly(L: Ledger, L': Ledger) {
    L.outstanding <= L'.outstanding && L.settled <= L'.settled
  }

  /** The lines written by a step that only appended: the outstanding ones,
      then the settled ones. */
  ghost function Added(L: Ledger, L': Ledger): seq<Line>
    requires AppendOnly(L, L')
  {
    L'.outstanding[|L.outstanding|..] + L'.settled[|L.settled|..]
  }

  /** A message logged through the invoice controller configured with
      `paymentMethod`: each journal whose filter accepts it gains the record. */
  function Emit(L: Ledger, paymentMethod: string, levelno: int, r: Record): (L': Ledger)
    ensures AppendOnly(L, L')
    ensures Added(L, L') == if levelno == ACCOUNT then [Parsed(r)] else []
    ensures L'.settled != L.settled <==> levelno == ACCOUNT && InvoiceStatus(paymentMethod) == Settled
  {
    var ds := Destinations(paymentMethod, levelno);
    Ledger(if Outstanding in ds then L.outstanding + [Parsed(r)] else L.outstanding,
           if Settled in ds then L.settled + [Parsed(r)] else L.settled)
  }

  /** Accounting `r`: it is appended to exactly one journal, the one named by
      the status of the payment method. */
  function Account(L: Ledger, paymentMethod: string, r: Record): (L': Ledger)
    ensures InvoiceStatus(paymentMethod) == Outstanding ==> L' == L.(outstanding := L.outstanding + [Parsed(r)])
    ensures InvoiceStatus(paymentMethod) == Settled ==> L' == L.(settled := L.settled + [Parsed(r)])
  {
    var L' := Emit(L, paymentMethod, ACCOUNT, r);
    assert L'.outstanding == L'.outstanding[..|L.outstanding|] + L'.outstanding[|L.outstanding|..];
    assert L'.settled == L'.settled[..|L.settled|] + L'.settled[|L.settled|..];
    L'
  }

  /** Accounting the records of `rs` one after the other. */
  function AccountAll(L: Ledger, paymentMethod: string, rs: seq<Record>): Ledger
    decreases |rs|
  {
    if rs == [] then L
    else AccountAll(Account(L, paymentMethod, rs[0]), paymentMethod, rs[1..])
  }

  /** Accounting a sequence of records under a payment method with settled
      status appends their lines, in order, to the settled journal alone. */
  lemma {:induction false} AccountAllSettles(L: Ledger, paymentMethod: string, rs: seq<Record>)
    requires InvoiceStatus(paymentMethod) == Settled
    ensures AccountAll(L, paymentMethod, rs) == Ledger(L.outstanding, L.settled + Entries(rs))
    decreases |rs|
  {
    if rs == [] {
      assert L.settled + Entries(rs) == L.settled;
    } else {
      var L1 := Ledger(L.outstanding, L.settled + [Parsed(rs[0])]);
      assert Account(L, paymentMethod, rs[0]) == L1;
      assert AccountAll(L, paymentMethod, rs) == AccountAll(L1, paymentMethod, rs[1..]);
      AccountAllSettles(L1, paymentMethod, rs[1..]);
      EntriesStep(L.settled, rs);
    }
  }

  /** Why a request is refused. */
  datatype Error = MissingParameter(name: string) | InvalidInvoice | NotFound

  /** The ledger after a request, and what the caller is told. */
  datatype Reply<T> = Reply(ledger: Ledger, result: Result<T, Error>)

  /** A request field that is present and not empty. */
  predicate Given(field: Option<string>) {
    field.Some? && field.value != ""
  }

  /** The invoice parameters are valid when both are non-empty. */
  predicate ValidateInvoice(guest: string, item: string) {
    guest != "" && item != ""
  }

  /** Charging `item` to guest `name`, numbered `newNumber`. A missing payment
      method means the room bill; a missing note means an empty one. */
  function AddToBill(L: Ledger, name: Option<string>, item: Option<string>, paymentMethod: Option<string>,
                     note: Option<string>, newNumber: InvoiceNumber): (reply: Reply<InvoiceNumber>)
    ensures !Given(name) ==> reply == Reply(L, Failure(MissingParameter("name")))
    ensures Given(name) && !Given(item) ==> reply == Reply(L, Failure(MissingParameter("item")))
    ensures Given(name) && Given(item) ==>
              && reply.result == Success(newNumber)
              && AppendOnly(L, reply.ledger)
              && Added(L, reply.ledger) == [Parsed(Record(newNumber, name.value, item.value, Price(item.value), note.GetOr("")))]
    ensures Given(name) && Given(item) ==>
              (reply.ledger.outstanding == L.outstanding <==> paymentMethod == Some("cash") || paymentMethod == Some("debit"))
  {
    if !Given(name) then Reply(L, Failure(MissingParameter("name")))
    else if !Given(item) then Reply(L, Failure(MissingParameter("item")))
    else if !ValidateInvoice(name.value, item.value) then Reply(L, Failure(InvalidInvoice))
    else
      var invoice := Record(newNumber, name.value, item.value, Price(item.value), note.GetOr(""));
      Reply(Account(L, paymentMethod.GetOr(PAYMENT_ON_ACCOUNT), invoice), Success(newNumber))
  }

  /** The compensating entry for `original`: same guest, item and note, a new
      number and the negated amount. */
  function StornoOf(original: Record, newNumber: InvoiceNumber): (s: Record)
    ensures s.amount + original.amount == 0
    ensures s.guest == original.guest && s.item == original.item
    ensures s.number == newNumber && s.note == original.note
  {
    original.(number := newNumber, amount := -original.amount)
  }

  /** Cancelling invoice `number` by a compensating entry numbered `newNumber`.
      The first outstanding record with that number is cancelled; the entry
      is appended to the outstanding journal and the original stays. */
  function Storno(L: Ledger, number: Option<InvoiceNumber>, newNumber: InvoiceNumber): (reply: Reply<()>)
    ensures number.None? ==> reply == Reply(L, Failure(MissingParameter("number")))
    ensures number.Some? ==>
              (reply.result.Failure? <==>
                 forall i :: 0 <= i < |L.outstanding| && L.outstanding[i].Parsed? ==> L.outstanding[i].record.number != number.value)
    ensures reply.result.Failure? ==> reply.ledger == L
    ensures number.Some? && reply.result.Failure? ==> reply.result.error == NotFound
    ensures reply.result.Success? ==>
              number.Some? &&
              exists i :: FirstMatch(L.outstanding, None, number.value, i) &&
                          reply.ledger == L.(outstanding := L.outstanding + [Parsed(StornoOf(L.outstanding[i].record, newNumber))])
  {
    if number.None? then Reply(L, Failure(MissingParameter("number")))
    else
      var invoices := Scan(L.outstanding, None);
      FindInScan(L.outstanding, None, number.value);
      match FindNumber(invoices, number.value)
      case None => Reply(L, Failure(NotFound))
      case Some(k) => Reply(Account(L, PAYMENT_ON_ACCOUNT, StornoOf(invoices[k], newNumber)), Success(()))
  }

  /** The item names of `rs`, in order. */
  function Items(rs: seq<Record>): (items: seq<string>)
    ensures |items| == |rs|
  {
    if rs == [] then [] else [rs[0].item] + Items(rs[1..])
  }

  /** Item `k` of the list is the item of record `k`. */
  lemma {:induction false} ItemsAt(rs: seq<Record>)
    ensures forall k :: 0 <= k < |rs| ==> Items(rs)[k] == rs[k].item
    decreases |rs|
  {
    if rs != [] {
      ItemsAt(rs[1..]);
    }
  }

  /** Listing two runs of records lists the first run, then the second. */
  lemma {:induction false} ItemsAppend(a: seq<Record>, b: seq<Record>)
    ensures Items(a + b) == Items(a) + Items(b)
    decreases |a|
  {
    if a != [] {
      assert (a + b)[1..] == a[1..] + b;
      ItemsAppend(a[1..], b);
    } else {
      assert a + b == b;
    }
  }

  /** Settling `bill`: every billed record is accounted as paid in cash, then
      the outstanding journal is rewritten without the billed numbers. */
  function SettleBillInvoices(L: Ledger, bill: seq<Record>): (L': Ledger)
    ensures L'.settled == L.settled + Entries(bill)
    ensures L'.outstanding == Entries(Without(Scan(L.outstanding, None), Numbers(bill)))
    ensures L'.outstanding == Compact(L.outstanding, Numbers(bill))
  {
    var paid := AccountAll(L, PAYMENT_SETTLED, bill);
    AccountAllSettles(L, PAYMENT_SETTLED, bill);
    CompactKeepsUnbilled(paid.outstanding, Numbers(bill));
    paid.(outstanding := Compact(paid.outstanding, Numbers(bill)))
  }

  /** What a bill request tells the guest. */
  datatype Bill = Bill(total: int, items: seq<string>)

  /** Requesting the bill of guest `name`: the total and items of the guest's
      outstanding records, which are settled on the way. */
  function RequestBill(L: Ledger, name: Option<string>): (reply: Reply<Bill>)
    ensures !Given(name) ==> reply == Reply(L, Failure(MissingParameter("name")))
    ensures Given(name) ==> reply.result.Success?
    ensures Given(name) ==> reply.result.value.total == Balance(L.outstanding, name)
    ensures Given(name) ==>
              var owed := Scan(L.outstanding, name);
              |reply.result.value.items| == |owed| &&
              forall k :: 0 <= k < |owed| ==> reply.result.value.items[k] == owed[k].item
    ensures Given(name) ==> reply.ledger == SettleBillInvoices(L, Scan(L.outstanding, name))
  {
    if !Given(name) then Reply(L, Failure(MissingParameter("name")))
    else
      var bill := Scan(L.outstanding, name);
      TotalOfScan(L.outstanding, name);
      ItemsAt(bill);
      Reply(SettleBillInvoices(L, bill), Success(Bill(Total(bill), Items(bill))))
  }

  /** The first outstanding record numbered `number` that the guest filter
      selects, or nothing. */
  function GetInvoiceByNumber(L: Ledger, number: InvoiceNumber, guest: Option<string>): (found: Option<Record>)
    ensures found.None? <==>
              forall i :: 0 <= i < |L.outstanding| && Yields(L.outstanding[i], guest) ==> L.outstanding[i].record.number != number
    ensures found.Some? ==>
              exists i :: FirstMatch(L.outstanding, guest, number, i) && L.outstanding[i] == Parsed(found.value)
  {
    var invoices := Scan(L.outstanding, guest);
    FindInScan(L.outstanding, guest, number);
    match FindNumber(invoices, number)
    case None => None
    case Some(k) => Some(invoices[k])
  }

  /** An invoice as listed to the guest: without its number and note. */
  datatype InvoiceItem = InvoiceItem(guest: string, item: string, amount: int)

  /** A record as the listing shows it: without its number and note. */
  function Redact(r: Record): InvoiceItem {
    InvoiceItem(r.guest, r.item, r.amount)
  }

  /** The records of `rs` as the listing shows them, in order. */
  function RedactAll(rs: seq<Record>): (items: seq<InvoiceItem>)
    ensures |items| == |rs|
  {
    if rs == [] then [] else [Redact(rs[0])] + RedactAll(rs[1..])
  }

  /** Every record of `rs` is listed, and every listed item is some record
      of `rs` without its number and note. */
  lemma {:induction false} RedactAllMembers(rs: seq<Record>)
    ensures forall r :: r in rs ==> Redact(r) in RedactAll(rs)
    ensures forall x :: x in RedactAll(rs) ==> exists r :: r in rs && Redact(r) == x
    decreases |rs|
  {
    if rs != [] {
      RedactAllMembers(rs[1..]);
      assert rs == [rs[0]] + rs[1..];
    }
  }

  /** Redacting keeps one item per record, in place. */
  lemma {:induction false} RedactAllAt(rs: seq<Record>)
    ensures forall k :: 0 <= k < |rs| ==> RedactAll(rs)[k] == Redact(rs[k])
    decreases |rs|
  {
    if rs != [] {
      RedactAllAt(rs[1..]);
    }
  }

  /** Redacting two runs of records redacts the first run, then the second. */
  lemma {:induction false} RedactAllAppend(a: seq<Record>, b: seq<Record>)
    ensures RedactAll(a + b) == RedactAll(a) + RedactAll(b)
    decreases |a|
  {
    if a != [] {
      assert (a + b)[1..] == a[1..] + b;
      RedactAllAppend(a[1..], b);
    } else {
      assert a + b == b;
    }
  }

  /** The guest's outstanding invoices, followed by the settled ones when
      `includeSettled`, each without number and note. */
  function GetInvoiceItems(L: Ledger, guest: Option<string>, includeSettled: bool): (items: seq<InvoiceItem>)
    ensures |items| == |Scan(L.outstanding, guest)| + if includeSettled then |Scan(L.settled, guest)| else 0
    ensures forall k :: 0 <= k < |Scan(L.outstanding, guest)| ==> items[k] == Redact(Scan(L.outstanding, guest)[k])
    ensures includeSettled ==>
              forall k :: 0 <= k < |Scan(L.settled, guest)| ==>
                items[|Scan(L.outstanding, guest)| + k] == Redact(Scan(L.settled, guest)[k])
    ensures forall r :: Parsed(r) in L.outstanding && Selects(guest, r) ==> Redact(r) in items
    ensures forall r :: includeSettled && Parsed(r) in L.settled && Selects(guest, r) ==> Redact(r) in items
    ensures forall x :: x in items ==>
              exists r :: Redact(r) == x && Selects(guest, r) &&
                          (Parsed(r) in L.outstanding || (includeSettled && Parsed(r) in L.settled))
  {
    var owed := Scan(L.outstanding, guest);
    var paid := if includeSettled then Scan(L.settled, guest) else [];
    ScanMembers(L.outstanding, guest);
    ScanMembers(L.settled, guest);
    RedactAllAt(owed);
    RedactAllAt(paid);
    RedactAllMembers(owed);
    RedactAllMembers(paid);
    RedactAll(owed) + RedactAll(paid)
  }
}
