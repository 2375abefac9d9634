# Invoice ledger of the RingRing invoice service

A Dafny model of the ledger behind the hotel invoice service in
`service/InvoiceApp/app.py`. Guests are charged for items. A charge is
written as one JSON line to one of two journal files: the outstanding
journal (the running room bill) or the settled journal (paid). A charge can
be cancelled ("storno"): a compensating entry with the negated amount is
appended, and the original stays. Requesting a bill totals the guest's
outstanding charges, copies them to the settled journal and rewrites the
outstanding journal without them.

The model has six modules:

- `Optional` (`optional.dfy`): `Option` and `Result`.
- `Journal` (`journal.dfy`): invoice numbers, records and journal lines.
  It also holds the journal scan, the settlement rewrite (`Compact`), the
  lookup of the first record with a number, and sums.
- `Routing` (`routing.dfy`): the `InvoiceFilter` that decides which journal
  an accounted record reaches.
- `Catalog` (`catalog.dfy`): the price sheet.
- `InvoiceApp` (`invoice_app.dfy`): the operations. Each one is a pure
  function from the pair of journals (`Ledger`) to the new pair plus the
  reply.
- `LedgerProperties` (`ledger_properties.dfy`): lemmas that relate several
  operations.

Modelling decisions:

- A journal is a `seq<Line>`, oldest first. A `Line` is `Parsed(Record)` or
  `Malformed`.
- Amounts are integer cents.
- Invoice numbers are an opaque type compared only for equality.
- The number a new invoice gets is a parameter of the operation.
- A text field of a request that is absent or empty is `None` or
  `Some("")`; `Given` is the source's `if not field` test. The invoice
  number of a cancellation is an opaque value, so an absent and an empty
  number are both `None`.
- The write path, logging at the custom `ACCOUNT` level through two filtered
  handlers, is modelled as `Emit`. Each journal whose `InvoiceFilter` accepts
  the message gains the record.

## Model

| member | source | states |
|---|---|---|
| Routing.Destinations | service/InvoiceApp/app.py:28-35 | A message reaches no journal unless it is logged at the ACCOUNT level. An ACCOUNT message reaches exactly one journal. That journal is settled iff the payment method is cash or debit, and outstanding otherwise. |
| Catalog.Price | service/InvoiceApp/app.py:172-183 | Prices are between 0 and 2000 cents. An item not on the sheet costs 0. A non-zero price belongs to a listed item other than reception. |
| Journal.ScanMembers | service/InvoiceApp/app.py:190-202 | A record is yielded iff some line of the journal parses to it and the guest filter selects it. A missing or empty guest name selects everyone. Malformed lines never appear. |
| Journal.ScanFile | service/InvoiceApp/app.py:190-202 | A journal file that does not exist yields nothing. An existing one yields exactly the parseable, guest-selected records, one per line and in file order. |
| Journal.ScanAppend | service/InvoiceApp/app.py:194-202 | Scanning two journals written one after the other gives the first scan followed by the second. |
| Journal.ScanSkipsMalformed | service/InvoiceApp/app.py:196-200 | A malformed line between two parts of a journal is skipped and the scan goes on. The result is the scan of the part before followed by the scan of the part after. |
| Journal.ScanKeepsFileOrder | service/InvoiceApp/app.py:194-202 | The scan selects lines at strictly increasing positions. Each selected line parses to the record at that place in the result. Every line the filter selects is selected, and every record in the result is one the filter selects. |
| Journal.ScanEntries | service/InvoiceApp/app.py:194-202 | Records written as lines are read back unchanged and in order when the filter selects them all. |
| Journal.FirstLine | service/InvoiceApp/app.py:95-96 | The position found is that of the first selected line carrying the number. When nothing is found, no selected line carries it. |
| Journal.FindInScan | service/InvoiceApp/app.py:205-209 | Searching the scanned records for a number finds the record on the first matching journal line. It finds nothing exactly when no selected line has the number. |
| Journal.CompactMembers | service/InvoiceApp/app.py:159-165 | A line survives the rewrite iff it parses to a complete record and its number is not among the billed numbers. |
| Journal.CompactKeepsUnbilled | service/InvoiceApp/app.py:155-165 | The rewritten journal consists exactly of the parseable records whose number was not billed, in their original relative order. |
| Journal.ScanAfterCompact | service/InvoiceApp/app.py:155-165 | After the rewrite, any guest's scan equals the earlier scan minus the billed numbers. |
| Journal.TotalOfScan | service/InvoiceApp/app.py:120-124 | The sum of the amounts of the scanned records equals the guest's balance, computed line by line over the journal. |
| InvoiceApp.Emit | service/InvoiceApp/app.py:34-35 | Logging through the controller only appends. At the ACCOUNT level exactly the record is added. At any other level nothing is added. The settled journal changes iff the level is ACCOUNT and the payment method has settled status. |
| InvoiceApp.Account | service/InvoiceApp/app.py:236-238 | Accounting a record appends it to the outstanding journal alone when the payment method has outstanding status, and to the settled journal alone otherwise. |
| InvoiceApp.AccountAllSettles | service/InvoiceApp/app.py:148-153 | Accounting a sequence of records under a payment method with settled status (as settlement does with cash) appends their lines, in order, to the settled journal. The outstanding journal is untouched. |
| InvoiceApp.AddToBill | service/InvoiceApp/app.py:56-85 | A missing name or item is refused, and nothing is written. Otherwise the reply is the new number and exactly one line is appended. That line holds the guest, the item, the catalog price and the note (empty by default). The outstanding journal is untouched iff the payment method is cash or debit. The default is the room bill. |
| InvoiceApp.StornoOf | service/InvoiceApp/app.py:98-101 | The compensating entry has the same guest, item and note as the original, carries the new number, and its amount cancels the original's. |
| InvoiceApp.Storno | service/InvoiceApp/app.py:89-107 | A missing number is refused as a missing parameter. The request fails as not found, with nothing written, iff no parseable outstanding line has the number. On success, the first such line stays. The only change is one appended outstanding line: its compensating entry under the new number. |
| InvoiceApp.SettleBillInvoices | service/InvoiceApp/app.py:148-165 | The settled journal gains the billed records in bill order. The outstanding journal becomes exactly its parseable records whose number is not billed, in order. |
| InvoiceApp.RequestBill | service/InvoiceApp/app.py:111-127 | A missing name is refused. Otherwise the total is the guest's outstanding balance, and the items are the items of the guest's outstanding records in journal order. The ledger is the one settlement leaves. |
| InvoiceApp.GetInvoiceByNumber | service/InvoiceApp/app.py:205-209 | The result is the record on the first outstanding line that the guest filter selects and that carries the number. It is empty iff there is no such line. |
| InvoiceApp.GetInvoiceItems | service/InvoiceApp/app.py:212-221 | The guest's outstanding records come first, in journal order, one item each without number and note. When settled invoices are included, the guest's settled records follow in journal order. Every listed item comes from such a record. |
| LedgerProperties.GuestClearedByBill | service/InvoiceApp/app.py:155-165 | After a bill request the guest's outstanding scan is empty and their outstanding balance is zero. |
| LedgerProperties.SettledGainsBill | service/InvoiceApp/app.py:148-153 | A bill request only appends to the settled journal, only lines of the billed guest, and raises the guest's settled balance by the billed total. |
| LedgerProperties.SecondBillIsEmpty | service/InvoiceApp/app.py:121-126 | A second bill request right after the first gives total 0 and no items. |
| LedgerProperties.ListingAfterBill | service/InvoiceApp/app.py:212-221 | After a bill request the guest's open listing is empty. The full listing is the earlier settled invoices followed by the just-billed ones. |
| LedgerProperties.OtherGuestKeepsCharges | service/InvoiceApp/app.py:155-163 | A bill request leaves another guest's outstanding records in place when none of them shares a number with the billed guest's records. |
| LedgerProperties.SharedNumberDropsCharge | service/InvoiceApp/app.py:155-163 | Another guest's record that shares a number with a billed record is removed from the outstanding journal and is not among the newly settled lines. |
| LedgerProperties.ChargeAppends | service/InvoiceApp/app.py:65-84 | A valid charge appends its record to the settled journal alone when paid in cash or by debit, and to the outstanding journal alone otherwise. |
| LedgerProperties.StornoAppendsEntry | service/InvoiceApp/app.py:95-104 | Cancelling the first outstanding record with a number succeeds and appends exactly its compensating entry to the outstanding journal. |
| LedgerProperties.StornoNetsOut | service/InvoiceApp/app.py:95-104 | Cancelling the first outstanding record with a number succeeds. The original line stays in place and the settled journal is untouched. The guest's balance drops by the original amount. |
| LedgerProperties.ChargeThenStornoRestoresBalance | service/InvoiceApp/app.py:89-104 | A room-bill charge under an unused number, followed by its cancellation, restores the guest's balance. The charge line stays in the journal. |
| LedgerProperties.PaidChargeBypassesBill | service/InvoiceApp/app.py:65-84 | A cash or debit charge leaves the outstanding journal unchanged and the guest's open listing unchanged. The full listing gains the charge at its end. |
| LedgerProperties.PaidChargeLeavesBill | service/InvoiceApp/app.py:65-84 | A cash or debit charge does not change what the guest's next bill request reports. |
| LedgerProperties.RoomBillChargeIsBilled | service/InvoiceApp/app.py:118-124 | A charge with the default payment method adds its price to the guest's next bill total, and its item to the end of the bill's items. |
| LedgerProperties.OwnChargeAppended | service/InvoiceApp/app.py:121-124 | A guest's own record appended to a journal raises the guest's balance by its amount and adds its item after the guest's earlier items. |

Behaviour of the code that the model keeps as written:

- Cancellation scans only the outstanding journal. It appends the
  compensating entry through the default controller, so the entry always goes
  to the outstanding journal, never to the settled one. The compensating
  entry also keeps the original note.
- The settlement rewrite writes the outstanding file in place, line by line.
  It drops malformed lines along with the billed ones.
- A cash or debit charge goes straight to the settled journal. So not every
  settled record was once outstanding.
- `validate_invoice` (lines 168-169) repeats the two parameter checks that
  precede it. So `AddToBill` never answers `InvalidInvoice`: its contract
  admits only the two `MissingParameter` failures.

## Left out

- Flask routing, HTTP status codes and JSON responses (lines 1-3, 38-52, 130-145, 245-246): replies are the `Reply` datatype. The `home` and `invoice_details` routes and the `log-level` parameter are not modelled.
- `get_invoice_controller` and the YAML logging configuration (lines 224-233): `logger-config.yml` is not part of this model. It is taken to attach one handler per journal, each guarded only by its `InvoiceFilter`. The payment method is spliced into the YAML text and parsed back (lines 226-227); the model assumes each filter receives the submitted value unchanged. The formatter's renaming of `guest_name` to `name`, and its `time` field, are treated as identity; records carry no timestamp.
- File I/O: only the resulting line sequences are modelled. The ledger state takes both journal files to exist. A missing file reads like an empty one (`ScanFile`), but opening a missing outstanding file for the rewrite at line 156 would raise; that case is not modelled. Crash and partial-write states of the in-place rewrite are out of scope.
- Concurrency (threaded server, line 241): the model is single-threaded.
- Floating point (lines 99, 120-124, 173-182): amounts and prices are exact integer cents, so the drift of float accumulation is not modelled.
- `get_invoice_number` (lines 186-187): the random 32-bit number is a parameter, and uniqueness is not claimed. `SharedNumberDropsCharge` shows what a collision does to settlement.
- JSON parsing: a line either parses to a complete record or is `Malformed`. A line that parses but lacks a field is not distinguished. Such a line can make a request fail with `KeyError`: at line 201 (`name`, guest-filtered scans), line 96 (`invoice_number`, cancellation), lines 123-124 (`item`, `amount`, bill), lines 151-153 (settlement, after part of the bill was already written to the settled journal), line 207 (lookup by number) and lines 219-220 (listing). The rewrite at line 162 keeps it when it carries an `invoice_number` that was not billed, while the model drops it; a complete-enough line of the billed guest is billed and settled by the source but not by the model.
- Comparison of invoice numbers: form values are strings and generated numbers are integers (lines 91, 96, 187, 207). The model compares opaque numbers for equality only.
- InvoiceApp.Storno: replies with `()` on success, as the source replies only with a success flag. The compensating entry is stated through the ledger.
- Catalog.Price: the contract states the price range and the zero default, not each of the eight prices. Those are the constant `PriceSheet` itself.
