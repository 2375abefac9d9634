/** Properties that relate several ledger operations: what a bill request
    settles and what it leaves, how a cancellation nets out a charge, and
    where a charge paid on the spot is visible. */
module LedgerProperties {
  import opened Optional
  import opened Journal
  import opened Routing
  import opened Catalog
  import opened InvoiceApp

  /** After a bill request no outstanding record of the guest remains, so
      the guest's outstanding balance is zero. */
  lemma GuestClearedByBill(L: Ledger, name: Option<string>)
    requires Given(name)
    ensures Scan(RequestBill(L, name).ledger.outstanding, name) == []
    ensures Balance(RequestBill(L, name).ledger.outstanding, name) == 0
  {
    var bill := Scan(L.outstanding, name);
    var out' := RequestBill(L, name).ledger.outstanding;
    assert out' == Compact(L.outstanding, Numbers(bill));
    ScanAfterCompact(L.outstanding, Numbers(bill), name);
    WithoutOwnNumbers(bill);
    TotalOfScan(out', name);
  }

  /** A bill request only appends to the settled journal, and only records
      of the billed guest; the guest's settled balance grows by exactly the
      total billed. */
  lemma SettledGainsBill(L: Ledger, name: Option<string>)
    requires Given(name)
    ensures var reply := RequestBill(L, name);
            && L.settled <= reply.ledger.settled
            && (forall l :: l in reply.ledger.settled[|L.settled|..] ==> l.Parsed? && l.record.guest == name.value)
            && Balance(reply.ledger.settled, name) == Balance(L.settled, name) + reply.result.value.total
  {
    var reply := RequestBill(L, name);
    var bill := Scan(L.outstanding, name);
    var settled' := reply.ledger.settled;
    assert settled' == L.settled + Entries(bill);
    assert settled'[|L.settled|..] == Entries(bill);
    EntriesMembers(bill);
    ScanMembers(L.outstanding, name);
    ScanSelects(L.outstanding, name);
    ScanEntries(bill, name);
    BalanceAppend(L.settled, Entries(bill), name);
    TotalOfScan(Entries(bill), name);
  }

  /** Requesting a bill settles it: asking again right away gives a zero
      total and no items. */
  lemma SecondBillIsEmpty(L: Ledger, name: Option<string>)
    requires Given(name)
    ensures RequestBill(RequestBill(L, name).ledger, name).result == Success(Bill(0, []))
  {
    GuestClearedByBill(L, name);
  }

  /** After a bill request the guest's open listing is empty, and the full
      listing shows the earlier settled invoices followed by the ones just
      billed, in journal order. */
  lemma ListingAfterBill(L: Ledger, name: Option<string>)
    requires Given(name)
    ensures var L' := RequestBill(L, name).ledger;
            && GetInvoiceItems(L', name, false) == []
            && GetInvoiceItems(L', name, true) == RedactAll(Scan(L.settled, name)) + RedactAll(Scan(L.outstanding, name))
  {
    GuestClearedByBill(L, name);
    var bill := Scan(L.outstanding, name);
    var L' := RequestBill(L, name).ledger;
    assert L'.settled == L.settled + Entries(bill);
    ScanSelects(L.outstanding, name);
    ScanAppend(L.settled, Entries(bill), name);
    ScanEntries(bill, name);
    assert Scan(L'.settled, name) == Scan(L.settled, name) + bill;
    RedactAllAppend(Scan(L.settled, name), bill);
  }

  /** A bill request for one guest leaves another guest's outstanding
      invoices in place, provided no invoice of the other guest shares a
      number with one of the billed guest. */
  lemma OtherGuestKeepsCharges(L: Ledger, name: Option<string>, other: Option<string>)
    requires Given(name) && Given(other)
    requires forall r, q :: (Parsed(r) in L.outstanding && Parsed(q) in L.outstanding &&
                             r.guest == other.value && q.guest == name.value) ==> r.number != q.number
    ensures Scan(RequestBill(L, name).ledger.outstanding, other) == Scan(L.outstanding, other)
  {
    var bill := Scan(L.outstanding, name);
    var theirs := Scan(L.outstanding, other);
    ScanAfterCompact(L.outstanding, Numbers(bill), other);
    ScanMembers(L.outstanding, name);
    ScanMembers(L.outstanding, other);
    NumbersAt(bill);
    forall k | 0 <= k < |theirs|
      ensures theirs[k].number !in Numbers(bill)
    {
      assert theirs[k] in theirs;
      forall j | 0 <= j < |bill|
        ensures Numbers(bill)[j] != theirs[k].number
      {
        assert bill[j] in bill;
      }
    }
    WithoutUnused(theirs, Numbers(bill));
  }

  /** Invoice numbers are not checked for uniqueness, so an invoice of
      another guest that shares a number with a billed invoice disappears
      from the outstanding journal without being settled. */
  lemma SharedNumberDropsCharge(L: Ledger, name: Option<string>, r: Record, q: Record)
    requires Given(name)
    requires Parsed(r) in L.outstanding && Parsed(q) in L.outstanding
    requires q.guest == name.value && r.guest != name.value && r.number == q.number
    ensures var L' := RequestBill(L, name).ledger;
            && Parsed(r) !in L'.outstanding
            && Parsed(r) !in L'.settled[|L.settled|..]
  {
    var bill := Scan(L.outstanding, name);
    SettledGainsBill(L, name);
    ScanMembers(L.outstanding, name);
    assert q in bill;
    var j :| 0 <= j < |bill| && bill[j] == q;
    NumbersAt(bill);
    assert Numbers(bill)[j] == r.number;
    CompactMembers(L.outstanding, Numbers(bill));
  }

  /** Cancelling the first outstanding invoice numbered `n` keeps it in
      place, leaves the settled journal alone and lowers its guest's
      balance by its amount. */
  lemma StornoNetsOut(L: Ledger, n: InvoiceNumber, newNumber: InvoiceNumber, i: nat)
    requires FirstMatch(L.outstanding, None, n, i)
    ensures var reply := Storno(L, Some(n), newNumber);
            var original := L.outstanding[i].record;
            && reply.result.Success?
            && reply.ledger.outstanding[i] == Parsed(original)
            && reply.ledger.settled == L.settled
            && Balance(reply.ledger.outstanding, Some(original.guest)) ==
               Balance(L.outstanding, Some(original.guest)) - original.amount
  {
    var original := L.outstanding[i].record;
    var s := StornoOf(original, newNumber);
    StornoAppendsEntry(L, n, newNumber, i);
    BalanceAppend(L.outstanding, [Parsed(s)], Some(original.guest));
    assert Balance([Parsed(s)], Some(original.guest)) == s.amount;
  }

  /** The cancellation of the first match `i` appends exactly its
      compensating entry to the outstanding journal. */
  lemma StornoAppendsEntry(L: Ledger, n: InvoiceNumber, newNumber: InvoiceNumber, i: nat)
    requires FirstMatch(L.outstanding, None, n, i)
    ensures Storno(L, Some(n), newNumber) ==
            Reply(L.(outstanding := L.outstanding + [Parsed(StornoOf(L.outstanding[i].record, newNumber))]), Success(()))
  {
    var reply := Storno(L, Some(n), newNumber);
    var j :| FirstMatch(L.outstanding, None, n, j) &&
             reply.ledger == L.(outstanding := L.outstanding + [Parsed(StornoOf(L.outstanding[j].record, newNumber))]);
    assert j == i;
  }

  /** A valid charge appends its record to the journal its payment method
      selects, and nothing else. */
  lemma ChargeAppends(L: Ledger, guest: string, item: string, paymentMethod: Option<string>,
                      note: Option<string>, n: InvoiceNumber)
    requires guest != "" && item != ""
    ensures var c := Record(n, guest, item, Price(item), note.GetOr(""));
            var L' := AddToBill(L, Some(guest), Some(item), paymentMethod, note, n).ledger;
            if InvoiceStatus(paymentMethod.GetOr(PAYMENT_ON_ACCOUNT)) == Settled
            then L' == L.(settled := L.settled + [Parsed(c)])
            else L' == L.(outstanding := L.outstanding + [Parsed(c)])
  {
  }

  /** Charging a guest on the room bill and then cancelling that charge
      brings the guest's balance back to where it was, while the charge
      itself stays in the outstanding journal. */
  lemma ChargeThenStornoRestoresBalance(L: Ledger, guest: string, item: string, note: Option<string>,
                                        n: InvoiceNumber, stornoNumber: InvoiceNumber)
    requires guest != "" && item != ""
    requires forall i :: 0 <= i < |L.outstanding| && L.outstanding[i].Parsed? ==> L.outstanding[i].record.number != n
    ensures var charged := AddToBill(L, Some(guest), Some(item), None, note, n).ledger;
            var reply := Storno(charged, Some(n), stornoNumber);
            && reply.result.Success?
            && charged.outstanding <= reply.ledger.outstanding
            && Balance(reply.ledger.outstanding, Some(guest)) == Balance(L.outstanding, Some(guest))
  {
    var charged := AddToBill(L, Some(guest), Some(item), None, note, n).ledger;
    var c := Record(n, guest, item, Price(item), note.GetOr(""));
    ChargeAppends(L, guest, item, None, note, n);
    var i := |L.outstanding|;
    assert FirstMatch(charged.outstanding, None, n, i);
    StornoNetsOut(charged, n, stornoNumber, i);
    BalanceAppend(L.outstanding, [Parsed(c)], Some(guest));
    assert Balance([Parsed(c)], Some(guest)) == c.amount;
  }

  /** A charge paid in cash or by debit never reaches the outstanding
      journal: the bill is unaffected and the charge shows up only in the
      listing that includes settled invoices, at its end. */
  lemma PaidChargeBypassesBill(L: Ledger, guest: string, item: string, paymentMethod: string,
                               note: Option<string>, n: InvoiceNumber)
    requires guest != "" && item != ""
    requires paymentMethod == "cash" || paymentMethod == "debit"
    ensures var L' := AddToBill(L, Some(guest), Some(item), Some(paymentMethod), note, n).ledger;
            && L'.outstanding == L.outstanding
            && GetInvoiceItems(L', Some(guest), false) == GetInvoiceItems(L, Some(guest), false)
            && GetInvoiceItems(L', Some(guest), true) ==
               GetInvoiceItems(L, Some(guest), true) + [InvoiceItem(guest, item, Price(item))]
  {
    var L' := AddToBill(L, Some(guest), Some(item), Some(paymentMethod), note, n).ledger;
    var c := Record(n, guest, item, Price(item), note.GetOr(""));
    ChargeAppends(L, guest, item, Some(paymentMethod), note, n);
    assert L'.settled == L.settled + [Parsed(c)];
    ScanAppend(L.settled, [Parsed(c)], Some(guest));
    assert Scan([Parsed(c)], Some(guest)) == [c];
    RedactAllAppend(Scan(L.settled, Some(guest)), [c]);
  }

  /** Hence a charge paid on the spot changes nothing on the guest's next bill. */
  lemma PaidChargeLeavesBill(L: Ledger, guest: string, item: string, paymentMethod: string,
                             note: Option<string>, n: InvoiceNumber)
    requires guest != "" && item != ""
    requires paymentMethod == "cash" || paymentMethod == "debit"
    ensures RequestBill(AddToBill(L, Some(guest), Some(item), Some(paymentMethod), note, n).ledger, Some(guest)).result
            == RequestBill(L, Some(guest)).result
  {
    var L' := AddToBill(L, Some(guest), Some(item), Some(paymentMethod), note, n).ledger;
    assert L'.outstanding == L.outstanding;
    BillReadsOnlyOutstanding(L', L, Some(guest));
  }

  /** What a bill request tells the guest depends on the outstanding journal alone. */
  lemma BillReadsOnlyOutstanding(L1: Ledger, L2: Ledger, name: Option<string>)
    requires L1.outstanding == L2.outstanding
    ensures RequestBill(L1, name).result == RequestBill(L2, name).result
  {
  }

  /** A charge on the room bill adds its price to the guest's next bill and
      its item to the end of the bill's items. */
  lemma RoomBillChargeIsBilled(L: Ledger, guest: string, item: string, note: Option<string>, n: InvoiceNumber)
    requires guest != "" && item != ""
    ensures var L' := AddToBill(L, Some(guest), Some(item), None, note, n).ledger;
            var before := RequestBill(L, Some(guest)).result.value;
            var after := RequestBill(L', Some(guest)).result.value;
            && after.total == before.total + Price(item)
            && after.items == before.items + [item]
  {
    var L' := AddToBill(L, Some(guest), Some(item), None, note, n).ledger;
    var c := Record(n, guest, item, Price(item), note.GetOr(""));
    ChargeAppends(L, guest, item, None, note, n);
    BillOf(L, guest);
    BillOf(L', guest);
    OwnChargeAppended(L.outstanding, c);
  }

  /** Appending a record of `c.guest` to a journal raises their balance by
      its amount and puts its item after their earlier items. */
  lemma OwnChargeAppended(lines: seq<Line>, c: Record)
    requires c.guest != ""
    ensures Balance(lines + [Parsed(c)], Some(c.guest)) == Balance(lines, Some(c.guest)) + c.amount
    ensures Items(Scan(lines + [Parsed(c)], Some(c.guest))) == Items(Scan(lines, Some(c.guest))) + [c.item]
  {
    BalanceAppend(lines, [Parsed(c)], Some(c.guest));
    assert Balance([Parsed(c)], Some(c.guest)) == c.amount;
    ScanAppend(lines, [Parsed(c)], Some(c.guest));
    assert Scan([Parsed(c)], Some(c.guest)) == [c];
    ItemsAppend(Scan(lines, Some(c.guest)), [c]);
  }

  /** The bill a guest is handed: their outstanding balance and the items of
      their outstanding records. */
  lemma BillOf(L: Ledger, guest: string)
    requires guest != ""
    ensures RequestBill(L, Some(guest)).result ==
            Success(Bill(Balance(L.outstanding, Some(guest)), Items(Scan(L.outstanding, Some(guest)))))
  {
  }
}
