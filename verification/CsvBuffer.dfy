/** The row formatters as they grow a record buffer step by step under its size limit
    (src/csv_formatter.cpp), proved against FormatAudit and FormatBook. */
module CsvBuffer {
  import opened Types
  import opened TopFive
  import opened Sequencer
  import opened Decimal
  import opened CsvFormat

  class RecordBuffer {
    var text: string

    constructor ()
      ensures text == ""
    {
      text := "";
    }

    /** The buffer holds all of done, or done is larger than a record may be. */
    ghost predicate Holds(done: string, ok: bool)
      reads this
    {
      |text| <= MAX_RECORD && (ok <==> |done| <= MAX_RECORD) && (ok ==> text == done)
    }

    /** append_bytes after a chain of appends that has led to done. */
    method Append(bytes: string, ghost done: string, soFar: bool) returns (ok: bool)
      requires Holds(done, soFar)
      modifies this
      ensures Holds(done + bytes, ok)
    {
      if !soFar || |bytes| > MAX_RECORD - |text| {
        return false;
      }
      text := text + bytes;
      ok := true;
    }

    /** A field and its comma. */
    method AppendField(field: string, ghost done: string, soFar: bool) returns (ok: bool)
      requires Holds(done, soFar)
      modifies this
      ensures Holds(done + (field + ","), ok)
    {
      ok := Append(field, done, soFar);
      ok := Append(",", done + field, ok);
      assert done + field + "," == done + (field + ",");
    }

    /** append_quoted_field: quotes are doubled. */
    method AppendQuoted(field: string, ghost done: string, soFar: bool) returns (ok: bool)
      requires Holds(done, soFar)
      modifies this
      ensures Holds(done + ("\"" + Escaped(field) + "\""), ok)
    {
      ok := Append("\"", done, soFar);
      var i := 0;
      ghost var inside := done + "\"";
      assert field[..0] == "" && inside + Escaped("") == inside;
      while i < |field| && ok
        invariant i <= |field| && Holds(inside + Escaped(field[..i]), ok)
      {
        ghost var before := inside + Escaped(field[..i]);
        EscapedAppend(field[..i], field[i]);
        assert field[..i] + [field[i]] == field[..i + 1];
        if field[i] == '"' {
          ok := Append("\"\"", before, ok);
        } else {
          ok := Append([field[i]], before, ok);
        }
        assert before + Escaped([field[i]]) == inside + Escaped(field[..i + 1]);
        i := i + 1;
      }
      if !ok {
        EscapedPrefix(field, i);
      } else {
        assert field[..i] == field;
      }
      ok := Append("\"", inside + Escaped(field), ok);
      assert inside + Escaped(field) + "\"" == done + ("\"" + Escaped(field) + "\"");
    }

    /** append_book_side. */
    method AppendColumn(levels: seq<Level>, quantity: bool, ghost done: string, soFar: bool) returns (ok: bool)
      requires Holds(done, soFar)
      modifies this
      ensures Holds(done + Column(levels, quantity, DEPTH), ok)
    {
      ok := soFar;
      var i := 0;
      assert done + Column(levels, quantity, 0) == done;
      while i < DEPTH
        invariant i <= DEPTH && Holds(done + Column(levels, quantity, i), ok)
      {
        ghost var before := done + Column(levels, quantity, i);
        ok := Append(",", before, ok);
        var number := IntText(if i >= |levels| then 0 else if quantity then levels[i].quantity else levels[i].price);
        ok := Append(number, before + ",", ok);
        ColumnGrows(levels, quantity, i, done, number);
        i := i + 1;
      }
    }

    /** format_market_data_csv_row. */
    method FormatAuditRow(row: AuditRow) returns (r: Formatted)
      modifies this
      ensures r == FormatAudit(row) && text == if r.Text? then r.text else ""
    {
      text := "";
      if !ValidTimestamp(row.ts) {
        return FormatFailed(InvalidTimestamp);
      }
      if row.connSeq == 0 {
        return FormatFailed(InvalidSequence);
      }
      if !NormalizedSymbol(row.symbol) {
        return FormatFailed(InvalidSymbol);
      }
      var ok := AppendFields(AuditFields(row));
      ghost var fields := Joined(AuditFields(row));
      ok := AppendQuoted(row.payload, fields, ok);
      ok := Append("\n", fields + ("\"" + Escaped(row.payload) + "\""), ok);
      assert fields + ("\"" + Escaped(row.payload) + "\"") + "\n" == AuditText(row);
      if !ok {
        text := "";
        return FormatFailed(RecordTooLarge);
      }
      r := Text(text);
    }

    /** The next of the unquoted fields. */
    method AppendNext(f: seq<string>, i: nat, soFar: bool) returns (ok: bool)
      requires i < |f| && Holds(Joined(f[..i]), soFar)
      modifies this
      ensures Holds(Joined(f[..i + 1]), ok)
    {
      ok := AppendField(f[i], Joined(f[..i]), soFar);
      JoinedAppend(f[..i], f[i]);
      assert f[..i] + [f[i]] == f[..i + 1];
    }

    /** The eight unquoted fields, each with its comma. */
    method AppendFields(f: seq<string>) returns (ok: bool)
      requires text == "" && |f| == 8
      modifies this
      ensures Holds(Joined(f), ok)
    {
      ok := AppendNext(f, 0, true);
      ok := AppendNext(f, 1, ok);
      ok := AppendNext(f, 2, ok);
      ok := AppendNext(f, 3, ok);
      ok := AppendNext(f, 4, ok);
      ok := AppendNext(f, 5, ok);
      ok := AppendNext(f, 6, ok);
      ok := AppendNext(f, 7, ok);
      assert f[..8] == f;
    }

    /** format_order_book_csv_row. */
    method FormatBookRow(row: BookRow) returns (r: Formatted)
      modifies this
      ensures r == FormatBook(row) && text == if r.Text? then r.text else ""
    {
      text := "";
      if !ValidTimestamp(row.ts) {
        return FormatFailed(InvalidTimestamp);
      }
      if row.seqNo == 0 {
        return FormatFailed(InvalidSequence);
      }
      if row.instrument <= 0 {
        return FormatFailed(InvalidInstrumentId);
      }
      var printable := ValidBook(row.bids, row.asks);
      if !printable {
        return FormatFailed(InvalidBook);
      }
      var ok := AppendBook(row);
      if !ok {
        text := "";
        return FormatFailed(RecordTooLarge);
      }
      r := Text(text);
    }

    /** The six leading fields of a book row. */
    method AppendBookHead(row: BookRow) returns (ok: bool)
      requires text == ""
      modifies this
      ensures Holds(BookHead(row), ok)
    {
      ok := AppendField(IntText(row.ts.seconds), "", true);
      ghost var done := IntText(row.ts.seconds) + ",";
      ok := AppendField(IntText(row.ts.nanoseconds), done, ok);
      done := done + (IntText(row.ts.nanoseconds) + ",");
      ok := AppendField(IntText(row.seqNo), done, ok);
      done := done + (IntText(row.seqNo) + ",");
      ok := AppendField(IntText(row.instrument), done, ok);
      done := done + (IntText(row.instrument) + ",");
      ok := AppendField(RowTypeText(row.rowType), done, ok);
      done := done + (RowTypeText(row.rowType) + ",");
      ok := Append(SideText(row.side), done, ok);
      assert done + SideText(row.side) == BookHead(row);
    }

    method AppendBook(row: BookRow) returns (ok: bool)
      requires text == ""
      modifies this
      ensures Holds(BookText(row), ok)
    {
      ok := AppendBookHead(row);
      ghost var done := BookHead(row);
      ok := AppendColumn(row.bids, false, done, ok);
      done := done + Column(row.bids, false, DEPTH);
      ok := AppendColumn(row.bids, true, done, ok);
      done := done + Column(row.bids, true, DEPTH);
      ok := AppendColumn(row.asks, false, done, ok);
      done := done + Column(row.asks, false, DEPTH);
      ok := AppendColumn(row.asks, true, done, ok);
      done := done + Column(row.asks, true, DEPTH);
      ok := Append("\n", done, ok);
      assert done + "\n" == BookText(row);
    }
  }

  ghost function BookHead(row: BookRow): string {
    IntText(row.ts.seconds) + "," + IntText(row.ts.nanoseconds) + "," + IntText(row.seqNo) + ","
    + IntText(row.instrument) + "," + RowTypeText(row.rowType) + "," + SideText(row.side)
  }

  lemma ColumnGrows(levels: seq<Level>, quantity: bool, i: nat, done: string, number: string)
    requires number == IntText(if i >= |levels| then 0 else if quantity then levels[i].quantity else levels[i].price)
    ensures done + Column(levels, quantity, i) + "," + number == done + Column(levels, quantity, i + 1)
  {
    Regrouped(done, Column(levels, quantity, i), ",", number);
  }

  lemma Regrouped(a: string, b: string, c: string, d: string)
    ensures a + b + c + d == a + (b + c + d)
  {
  }

  lemma {:induction false} EscapedAppend(s: string, c: char)
    ensures Escaped(s + [c]) == Escaped(s) + Escaped([c])
    ensures Escaped([c]) == if c == '"' then "\"\"" else [c]
  {
    assert [c][1..] == "";
    if s != "" {
      assert (s + [c])[1..] == s[1..] + [c];
      EscapedAppend(s[1..], c);
    } else {
      assert s + [c] == [c];
    }
  }

  /** Escaping a prefix gives a shorter text. */
  lemma {:induction false} EscapedPrefix(s: string, n: nat)
    requires n <= |s|
    ensures |Escaped(s[..n])| <= |Escaped(s)|
    decreases |s| - n
  {
    if n == |s| {
      assert s[..n] == s;
    } else {
      EscapedAppend(s[..n], s[n]);
      assert s[..n] + [s[n]] == s[..n + 1];
      EscapedPrefix(s, n + 1);
    }
  }

  lemma {:induction false} JoinedAppend(fields: seq<string>, f: string)
    ensures Joined(fields + [f]) == Joined(fields) + (f + ",")
  {
    if fields == [] {
      assert [f][1..] == [] && [] + [f] == [f];
    } else {
      assert (fields + [f])[1..] == fields[1..] + [f];
      JoinedAppend(fields[1..], f);
    }
  }

  /** valid_side. */
  method ValidSide(levels: seq<Level>, side: BookSide) returns (ok: bool)
    ensures ok <==> GoodSide(side, levels)
  {
    if |levels| > DEPTH {
      return false;
    }
    var i := 0;
    while i < |levels|
      invariant i <= |levels| && GoodSide(side, levels[..i])
    {
      if levels[i].price <= 0 || levels[i].quantity <= 0 {
        return false;
      }
      if i != 0 && !Better(side, levels[i - 1].price, levels[i].price) {
        return false;
      }
      assert i != 0 ==> levels[..i][i - 1] == levels[i - 1];
      i := i + 1;
    }
    assert levels[..i] == levels;
    ok := true;
  }

  /** valid_book. */
  method ValidBook(bids: seq<Level>, asks: seq<Level>) returns (ok: bool)
    ensures ok <==> PrintableBook(bids, asks)
  {
    var bidsOk := ValidSide(bids, Bid);
    var asksOk := ValidSide(asks, Ask);
    ok := bidsOk && asksOk && (|bids| == 0 || |asks| == 0 || bids[0].price < asks[0].price);
  }
}
