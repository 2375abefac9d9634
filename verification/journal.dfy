/** The journal store: a journal is the sequence of lines of one invoice log
    file (outstanding or settled), oldest first. A line either parses to an
    invoice record or is malformed. Reading a journal skips malformed lines,
    optionally filters by guest and keeps file order; settlement rewrites a
    journal keeping only the records whose number was not billed. */
module Journal {
  import opened Optional

  /** Invoice numbers are opaque; the ledger only compares them for equality. */
  type InvoiceNumber(==, !new)

  /** One accounted invoice; `amount` is in cents. */
  datatype Record = Record(number: InvoiceNumber, guest: string, item: string, amount: int, note: string)

  /** One line of a journal file. */
  datatype Line = Parsed(record: Record) | Malformed

  /** The guest filter of a scan: no name, or an empty one, selects every record. */
  predicate Selects(guest: Option<string>, r: Record) {
    guest.None? || guest.value == "" || r.guest == guest.value
  }

  /** True when a scan for `guest` yields this line. */
  predicate Yields(l: Line, guest: Option<string>) {
    l.Parsed? && Selects(guest, l.record)
  }

  /** The records of `lines` a scan for `guest` yields, in file order. */
  function Scan(lines: seq<Line>, guest: Option<string>): (rs: seq<Record>)
    ensures |rs| <= |lines|
  {
    if lines == [] then []
    else
      (if Yields(lines[0], guest) then [lines[0].record] else []) + Scan(lines[1..], guest)
  }

  /** A record is scanned exactly when some line of the journal parses to it
      and the guest filter selects it. */
  lemma {:induction false} ScanMembers(lines: seq<Line>, guest: Option<string>)
    ensures forall r :: r in Scan(lines, guest) <==> Parsed(r) in lines && Selects(guest, r)
    decreases |lines|
  {
    if lines != [] {
      ScanMembers(lines[1..], guest);
      assert lines == [lines[0]] + lines[1..];
    }
  }

  /** Every scanned record is selected by the guest filter. */
  lemma {:induction false} ScanSelects(lines: seq<Line>, guest: Option<string>)
    ensures forall k :: 0 <= k < |Scan(lines, guest)| ==> Selects(guest, Scan(lines, guest)[k])
    decreases |lines|
  {
    if lines != [] {
      ScanSelects(lines[1..], guest);
    }
  }

  /** Scanning a journal file that may not exist: a missing file yields
      nothing rather than an error. */
  function ScanFile(file: Option<seq<Line>>, guest: Option<string>): (rs: seq<Record>)
    ensures forall r :: r in rs <==> file.Some? && Parsed(r) in file.value && Selects(guest, r)
    ensures file.Some? ==> OrderedSelection(file.value, guest, rs, Positions(file.value, guest, 0))
  {
    match file
    case None => []
    case Some(lines) => ScanMembers(lines, guest); ScanKeepsFileOrder(lines, guest); Scan(lines, guest)
  }

  /** Scanning distributes over concatenation of journals. */
  lemma {:induction false} ScanAppend(a: seq<Line>, b: seq<Line>, guest: Option<string>)
    ensures Scan(a + b, guest) == Scan(a, guest) + Scan(b, guest)
    decreases |a|
  {
    if a == [] {
      assert a + b == b;
    } else {
      var head := if Yields(a[0], guest) then [a[0].record] else [];
      ScanAppendStep(a, b, guest);
      ScanAppend(a[1..], b, guest);
      assert head + (Scan(a[1..], guest) + Scan(b, guest)) == (head + Scan(a[1..], guest)) + Scan(b, guest);
    }
  }

  /** The first line of `a` leads the scan of `a + b`. */
  lemma ScanAppendStep(a: seq<Line>, b: seq<Line>, guest: Option<string>)
    requires a != []
    ensures Scan(a + b, guest) == (if Yields(a[0], guest) then [a[0].record] else []) + Scan(a[1..] + b, guest)
  {
    assert (a + b)[1..] == a[1..] + b;
  }

  /** A malformed line neither appears in a scan nor stops it. */
  lemma ScanSkipsMalformed(a: seq<Line>, b: seq<Line>, guest: Option<string>)
    ensures Scan(a + [Malformed] + b, guest) == Scan(a, guest) + Scan(b, guest)
  {
    ScanAppend(a + [Malformed], b, guest);
    ScanAppend(a, [Malformed], guest);
  }

  /** The positions, counted from `base`, of the lines a scan for `guest`
      yields. */
  function Positions(lines: seq<Line>, guest: Option<string>, base: nat): seq<nat>
    decreases |lines|
  {
    if lines == [] then []
    else (if Yields(lines[0], guest) then [base] else []) + Positions(lines[1..], guest, base + 1)
  }

  /** `rs` is the selection of the yielded lines of `lines` at the strictly
      increasing positions `idx`, and every yielded line is selected. */
  ghost predicate OrderedSelection(lines: seq<Line>, guest: Option<string>, rs: seq<Record>, idx: seq<nat>) {
    && |idx| == |rs|
    && (forall k :: 0 <= k < |idx| ==> idx[k] < |lines| && lines[idx[k]] == Parsed(rs[k]))
    && (forall k, m :: 0 <= k < m < |idx| ==> idx[k] < idx[m])
    && (forall i :: 0 <= i < |lines| && Yields(lines[i], guest) ==> i in idx)
    && (forall k :: 0 <= k < |rs| ==> Selects(guest, rs[k]))
  }

  /** The lines of `lines` at positions `idx`, counted from `base`, parse to
      the records `rs`, one for one. */
  ghost predicate SelectedAt(lines: seq<Line>, base: nat, idx: seq<nat>, rs: seq<Record>) {
    && |idx| == |rs|
    && forall k :: 0 <= k < |idx| ==> base <= idx[k] < base + |lines| && lines[idx[k] - base] == Parsed(rs[k])
  }

  /** The line at each position a scan selects parses to the record at that place in the scan. */
  lemma {:induction false} PositionsSelectScan(lines: seq<Line>, guest: Option<string>, base: nat)
    ensures SelectedAt(lines, base, Positions(lines, guest, base), Scan(lines, guest))
    decreases |lines|
  {
    if lines != [] {
      var tail := lines[1..];
      PositionsSelectScan(tail, guest, base + 1);
      var rs, tp := Scan(tail, guest), Positions(tail, guest, base + 1);
      if Yields(lines[0], guest) {
        assert Positions(lines, guest, base) == [base] + tp;
        assert Scan(lines, guest) == [lines[0].record] + rs;
        SelectedAtCons(lines, base, [base], tp, [lines[0].record], rs);
      } else {
        assert Positions(lines, guest, base) == [] + tp;
        assert Scan(lines, guest) == [] + rs;
        SelectedAtCons(lines, base, [], tp, [], rs);
      }
    }
  }

  /** A selection in the tail of a journal, shifted by one line, extended by
      the first line or not. */
  lemma SelectedAtCons(lines: seq<Line>, base: nat, h: seq<nat>, tp: seq<nat>, hr: seq<Record>, rs: seq<Record>)
    requires lines != []
    requires SelectedAt(lines[1..], base + 1, tp, rs)
    requires (h == [] && hr == []) || (lines[0].Parsed? && h == [base] && hr == [lines[0].record])
    ensures SelectedAt(lines, base, h + tp, hr + rs)
  {
    var d := |h|;
    forall k | 0 <= k < |h + tp|
      ensures base <= (h + tp)[k] < base + |lines| && lines[(h + tp)[k] - base] == Parsed((hr + rs)[k])
    {
      if k >= d {
        assert (h + tp)[k] == tp[k - d] && (hr + rs)[k] == rs[k - d];
        assert lines[1..][tp[k - d] - (base + 1)] == lines[tp[k - d] - base];
      }
    }
  }

  /** The positions a scan selects start at `base` and strictly increase. */
  lemma {:induction false} PositionsIncrease(lines: seq<Line>, guest: Option<string>, base: nat)
    ensures forall k :: 0 <= k < |Positions(lines, guest, base)| ==> base <= Positions(lines, guest, base)[k]
    ensures forall k, m :: 0 <= k < m < |Positions(lines, guest, base)| ==>
              Positions(lines, guest, base)[k] < Positions(lines, guest, base)[m]
    decreases |lines|
  {
    if lines != [] {
      PositionsIncrease(lines[1..], guest, base + 1);
    }
  }

  /** Every line a scan yields is at one of the positions it selects. */
  lemma {:induction false} PositionsComplete(lines: seq<Line>, guest: Option<string>, base: nat)
    ensures forall i :: 0 <= i < |lines| && Yields(lines[i], guest) ==> base + i in Positions(lines, guest, base)
    decreases |lines|
  {
    if lines != [] {
      var tail := lines[1..];
      PositionsComplete(tail, guest, base + 1);
      var tp := Positions(tail, guest, base + 1);
      assert Positions(lines, guest, base) == (if Yields(lines[0], guest) then [base] else []) + tp;
      forall i | 1 <= i < |lines| && Yields(lines[i], guest)
        ensures base + i in tp
      {
        assert tail[i - 1] == lines[i];
      }
    }
  }

  /** A scan yields exactly the parseable lines selected by the guest filter,
      in file order. */
  lemma ScanKeepsFileOrder(lines: seq<Line>, guest: Option<string>)
    ensures OrderedSelection(lines, guest, Scan(lines, guest), Positions(lines, guest, 0))
  {
    PositionsSelectScan(lines, guest, 0);
    PositionsIncrease(lines, guest, 0);
    PositionsComplete(lines, guest, 0);
    ScanSelects(lines, guest);
  }

  /** `i` is the position of the first line a scan for `guest` yields whose
      invoice number is `n`. */
  ghost predicate FirstMatch(lines: seq<Line>, guest: Option<string>, n: InvoiceNumber, i: int) {
    && 0 <= i < |lines|
    && Yields(lines[i], guest) && lines[i].record.number == n
    && forall j :: 0 <= j < i ==> !(Yields(lines[j], guest) && lines[j].record.number == n)
  }

  /** The index of the first record numbered `n`, if any. */
  function FindNumber(rs: seq<Record>, n: InvoiceNumber): (found: Option<nat>)
    ensures found.Some? ==> found.value < |rs| && rs[found.value].number == n
    ensures found.Some? ==> forall j :: 0 <= j < found.value ==> rs[j].number != n
    ensures found.None? <==> forall j :: 0 <= j < |rs| ==> rs[j].number != n
  {
    if rs == [] then None
    else if rs[0].number == n then Some(0)
    else
      match FindNumber(rs[1..], n)
      case None => None
      case Some(i) => Some(i + 1)
  }

  /** The position of the first line a scan for `guest` yields whose number
      is `n`, found by walking the journal itself. */
  function FirstLine(lines: seq<Line>, guest: Option<string>, n: InvoiceNumber): (found: Option<nat>)
    ensures found.Some? ==> FirstMatch(lines, guest, n, found.value)
    ensures found.None? ==> forall i :: 0 <= i < |lines| && Yields(lines[i], guest) ==> lines[i].record.number != n
  {
    if lines == [] then None
    else if Yields(lines[0], guest) && lines[0].record.number == n then Some(0)
    else
      match FirstLine(lines[1..], guest, n)
      case None => None
      case Some(i) => assert lines[i + 1] == lines[1..][i]; Some(i + 1)
  }

  /** Searching the scan for a number finds the same record as walking the
      journal for its first matching line, and finds nothing exactly when
      that walk finds nothing. */
  lemma {:induction false} FindInScan(lines: seq<Line>, guest: Option<string>, n: InvoiceNumber)
    ensures FindNumber(Scan(lines, guest), n).None? <==> FirstLine(lines, guest, n).None?
    ensures FindNumber(Scan(lines, guest), n).Some? ==>
              lines[FirstLine(lines, guest, n).value] == Parsed(Scan(lines, guest)[FindNumber(Scan(lines, guest), n).value])
    decreases |lines|
  {
    if lines != [] {
      var tail := lines[1..];
      FindInScan(tail, guest, n);
      var rs, ts := Scan(lines, guest), Scan(tail, guest);
      if Yields(lines[0], guest) {
        assert rs == [lines[0].record] + ts;
        if lines[0].record.number != n {
          assert rs[1..] == ts;
        }
      } else {
        assert rs == ts;
      }
    }
  }

  /** The records whose number is not in `numbers`, in order. */
  function Without(rs: seq<Record>, numbers: seq<InvoiceNumber>): (kept: seq<Record>)
    ensures |kept| <= |rs|
  {
    if rs == [] then []
    else
      (if rs[0].number in numbers then [] else [rs[0]]) + Without(rs[1..], numbers)
  }

  /** The journal lines holding `rs`, one per record. */
  function Entries(rs: seq<Record>): (lines: seq<Line>)
    ensures |lines| == |rs|
  {
    if rs == [] then [] else [Parsed(rs[0])] + Entries(rs[1..])
  }

  /** Writing the first record and then the rest continues a journal as
      writing all of them does. */
  lemma EntriesStep(prefix: seq<Line>, rs: seq<Record>)
    requires rs != []
    ensures (prefix + [Parsed(rs[0])]) + Entries(rs[1..]) == prefix + Entries(rs)
  {
    assert Entries(rs) == [Parsed(rs[0])] + Entries(rs[1..]);
  }

  /** Every line written from `rs` parses to one of its records. */
  lemma {:induction false} EntriesMembers(rs: seq<Record>)
    ensures forall l :: l in Entries(rs) ==> l.Parsed? && l.record in rs
    decreases |rs|
  {
    if rs != [] {
      EntriesMembers(rs[1..]);
    }
  }

  /** The rewrite of a journal during settlement: a line survives when it
      parses and its number was not billed; malformed lines are dropped. */
  function Compact(lines: seq<Line>, numbers: seq<InvoiceNumber>): (kept: seq<Line>)
    ensures |kept| <= |lines|
  {
    if lines == [] then []
    else
      var keep := lines[0].Parsed? && lines[0].record.number !in numbers;
      (if keep then [lines[0]] else []) + Compact(lines[1..], numbers)
  }

  /** A line survives the rewrite exactly when it parses and its number was
      not billed. */
  lemma {:induction false} CompactMembers(lines: seq<Line>, numbers: seq<InvoiceNumber>)
    ensures forall l :: l in Compact(lines, numbers) <==> l in lines && l.Parsed? && l.record.number !in numbers
    decreases |lines|
  {
    if lines != [] {
      CompactMembers(lines[1..], numbers);
      assert lines == [lines[0]] + lines[1..];
    }
  }

  /** The rewritten journal is exactly the unbilled parseable records of the
      old one, in their original relative order. */
  lemma {:induction false} CompactKeepsUnbilled(lines: seq<Line>, numbers: seq<InvoiceNumber>)
    ensures Compact(lines, numbers) == Entries(Without(Scan(lines, None), numbers))
    decreases |lines|
  {
    if lines != [] {
      var tail := lines[1..];
      CompactKeepsUnbilled(tail, numbers);
      var rest := Without(Scan(tail, None), numbers);
      var keep := lines[0].Parsed? && lines[0].record.number !in numbers;
      assert Compact(lines, numbers) == (if keep then [lines[0]] else []) + Compact(tail, numbers);
      if lines[0].Parsed? {
        var s := Scan(lines, None);
        assert s == [lines[0].record] + Scan(tail, None);
        assert s[0] == lines[0].record && s[1..] == Scan(tail, None);
        if keep {
          assert Without(s, numbers) == [lines[0].record] + rest;
          assert Entries([lines[0].record] + rest) == [lines[0]] + Entries(rest);
        } else {
          assert Without(s, numbers) == rest;
        }
      } else {
        assert Scan(lines, None) == Scan(tail, None);
      }
    }
  }

  /** After the rewrite, a scan for any guest yields that guest's earlier
      records minus the billed numbers. */
  lemma {:induction false} ScanAfterCompact(lines: seq<Line>, numbers: seq<InvoiceNumber>, guest: Option<string>)
    ensures Scan(Compact(lines, numbers), guest) == Without(Scan(lines, guest), numbers)
    decreases |lines|
  {
    if lines != [] {
      ScanAfterCompact(lines[1..], numbers, guest);
      var keep := lines[0].Parsed? && lines[0].record.number !in numbers;
      var kept := (if keep then [lines[0]] else []) + Compact(lines[1..], numbers);
      assert Compact(lines, numbers) == kept;
      ScanAppend(if keep then [lines[0]] else [], Compact(lines[1..], numbers), guest);
      if Yields(lines[0], guest) {
        assert Scan(lines, guest) == [lines[0].record] + Scan(lines[1..], guest);
      } else {
        assert Scan(lines, guest) == Scan(lines[1..], guest);
      }
    }
  }

  /** The invoice numbers of `rs`, in order. */
  function Numbers(rs: seq<Record>): (ns: seq<InvoiceNumber>)
    ensures |ns| == |rs|
  {
    if rs == [] then [] else [rs[0].number] + Numbers(rs[1..])
  }

  /** Every billed record's number is among the billed numbers, at its own
      position. */
  lemma {:induction false} NumbersAt(rs: seq<Record>)
    ensures forall k :: 0 <= k < |rs| ==> Numbers(rs)[k] == rs[k].number
    decreases |rs|
  {
    if rs != [] {
      NumbersAt(rs[1..]);
    }
  }

  /** The sum of the amounts of `rs`. */
  function Total(rs: seq<Record>): int {
    if rs == [] then 0 else rs[0].amount + Total(rs[1..])
  }

  /** The total of two runs of records is the sum of their totals. */
  lemma {:induction false} TotalAppend(a: seq<Record>, b: seq<Record>)
    ensures Total(a + b) == Total(a) + Total(b)
    decreases |a|
  {
    if a == [] {
      assert a + b == b;
    } else {
      assert (a + b)[1..] == a[1..] + b;
      TotalAppend(a[1..], b);
    }
  }

  /** The balance of `guest` in a journal: the amounts of the parseable lines
      selected by the guest filter, summed line by line. */
  function Balance(lines: seq<Line>, guest: Option<string>): int {
    if lines == [] then 0
    else (if Yields(lines[0], guest) then lines[0].record.amount else 0) + Balance(lines[1..], guest)
  }

  /** Summing the scanned records gives the balance of the journal. */
  lemma {:induction false} TotalOfScan(lines: seq<Line>, guest: Option<string>)
    ensures Total(Scan(lines, guest)) == Balance(lines, guest)
    decreases |lines|
  {
    if lines != [] {
      TotalOfScan(lines[1..], guest);
      var head := if Yields(lines[0], guest) then [lines[0].record] else [];
      TotalAppend(head, Scan(lines[1..], guest));
    }
  }

  /** Scanning lines written from records the filter selects gives those
      records back: what is appended is what is read. */
  lemma {:induction false} ScanEntries(rs: seq<Record>, guest: Option<string>)
    requires forall k :: 0 <= k < |rs| ==> Selects(guest, rs[k])
    ensures Scan(Entries(rs), guest) == rs
    decreases |rs|
  {
    if rs != [] {
      assert Entries(rs)[1..] == Entries(rs[1..]);
      ScanEntries(rs[1..], guest);
    }
  }

  /** Removing numbers every record carries leaves nothing. */
  lemma {:induction false} WithoutCovered(rs: seq<Record>, numbers: seq<InvoiceNumber>)
    requires forall k :: 0 <= k < |rs| ==> rs[k].number in numbers
    ensures Without(rs, numbers) == []
    decreases |rs|
  {
    if rs != [] {
      WithoutCovered(rs[1..], numbers);
    }
  }

  /** Removing the numbers of `rs` from `rs` leaves nothing. */
  lemma WithoutOwnNumbers(rs: seq<Record>)
    ensures Without(rs, Numbers(rs)) == []
  {
    NumbersAt(rs);
    forall k | 0 <= k < |rs|
      ensures rs[k].number in Numbers(rs)
    {
      assert Numbers(rs)[k] == rs[k].number;
    }
    WithoutCovered(rs, Numbers(rs));
  }

  /** Removing numbers none of the records carries changes nothing. */
  lemma {:induction false} WithoutUnused(rs: seq<Record>, numbers: seq<InvoiceNumber>)
    requires forall k :: 0 <= k < |rs| ==> rs[k].number !in numbers
    ensures Without(rs, numbers) == rs
    decreases |rs|
  {
    if rs != [] {
      WithoutUnused(rs[1..], numbers);
    }
  }

  /** The balance of two journals written one after the other is the sum of
      their balances. */
  lemma BalanceAppend(a: seq<Line>, b: seq<Line>, guest: Option<string>)
    ensures Balance(a + b, guest) == Balance(a, guest) + Balance(b, guest)
  {
    TotalOfScan(a + b, guest);
    TotalOfScan(a, guest);
    TotalOfScan(b, guest);
    ScanAppend(a, b, guest);
    TotalAppend(Scan(a, guest), Scan(b, guest));
  }
}
