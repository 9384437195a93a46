/** What the reader of an audit file accepts: only lines of the documented form, and only files
    of valid rows in sequence (src/market_data_replay.cpp). */
module AuditSoundness {
  import opened Decimal
  import opened CsvFormat
  import opened CsvDecode
  import opened AuditFile

  // ---------------------------------------------------------------- one accepted line

  lemma {:induction false} UnescapeSound(s: string, done: string)
    requires Unescape(s, done).Payload?
    ensures var p := Unescape(s, done).bytes; done <= p && s == Escaped(p[|done|..])
    ensures |done| <= MAX_PAYLOAD ==> |Unescape(s, done).bytes| <= MAX_PAYLOAD
    decreases |s|
  {
    if s != [] {
      var n := if s[0] == '"' then 2 else 1;
      var next := done + [s[0]];
      UnescapeSound(s[n..], next);
      var p := Unescape(s, done).bytes;
      assert p[|done|..] == [s[0]] + p[|next|..];
      EscapedCons(s[0], p[|next|..]);
      assert s == s[..n] + s[n..];
    }
  }

  lemma EscapedCons(c: char, rest: string)
    ensures Escaped([c] + rest) == (if c == '"' then "\"\"" else [c]) + Escaped(rest)
  {
    assert ([c] + rest)[1..] == rest;
  }

  lemma JoinedCons(head: string, tail: seq<string>, rest: string)
    ensures Joined([head] + tail) + rest == head + "," + (Joined(tail) + rest)
  {
    assert ([head] + tail)[1..] == tail;
  }

  lemma {:induction false} SplitSound(s: string, column: nat)
    requires column <= 8 && Split(s, column).SplitOk?
    ensures var r := Split(s, column); |r.fields| == 8 - column && s == Joined(r.fields) + r.rest
    decreases 8 - column
  {
    if column < 8 {
      var i := Scan(s);
      SplitSound(s[i + 1..], column + 1);
      var tail := Split(s[i + 1..], column + 1);
      JoinedCons(s[..i], tail.fields, tail.rest);
      SplitAt(s, i);
    }
  }

  lemma SplitAt(s: string, i: nat)
    requires i < |s| && s[i] == ','
    ensures s == s[..i] + "," + s[i + 1..]
  {
  }

  /** Eight fields that read as the columns of the row in front of its payload. */
  predicate ReadsAsRow(f: seq<string>, row: AuditRow) {
    && |f| == 8 && ParseI64(f[0]) == AnInt(row.ts.seconds) && ParseI32(f[1]) == AnInt(row.ts.nanoseconds)
    && f[2] == (if row.venue.Spot? then "spot" else "usdm")
    && f[3] == (match row.kind case DepthDiff => "depth_diff" case Depth5 => "depth5" case Trade => "trade")
    && ParseU32(f[4]) == AnInt(row.shard) && ParseU64(f[5]) == AnInt(row.epoch) && ParseU64(f[6]) == AnInt(row.connSeq)
    && f[7] == row.symbol
  }

  /** The line holds eight fields that read as the row, and its payload, quoted, with every
      quote doubled. */
  ghost predicate IsLineOf(record: string, row: AuditRow) {
    exists f :: ReadsAsRow(f, row) && record == Joined(f) + "\"" + Escaped(row.payload) + "\"" + "\n"
  }

  lemma FieldsSound(f: seq<string>)
    requires |f| == 8 && DecodeFields(f).Row?
    ensures var row := DecodeFields(f).row;
            && ReadsAsRow(f, row) && row.shard == 0 && row.connSeq != 0 && ValidTimestamp(row.ts)
            && NormalizedSymbol(row.symbol)
  {
  }

  lemma QuotedSplits(encoded: string)
    requires |encoded| >= 2 && encoded[0] == '"' && encoded[|encoded| - 1] == '"'
    ensures encoded == "\"" + encoded[1..|encoded| - 1] + "\""
  {
  }

  lemma LineAssembles(record: string, body: string, joined: string, encoded: string, inner: string)
    requires record != [] && record[|record| - 1] == '\n' && body == record[..|record| - 1]
    requires body == joined + encoded && encoded == "\"" + inner + "\""
    ensures record == joined + "\"" + inner + "\"" + "\n"
  {
    assert record == body + "\n";
    assert joined + ("\"" + inner + "\"") == joined + "\"" + inner + "\"";
  }

  /** Every line the decoder accepts is a line of the row it returns, and the row is one the
      formatter accepts. */
  lemma DecodeSound(record: string)
    requires Decode(record).Row?
    ensures var row := Decode(record).row; IsLineOf(record, row) && ValidAuditRow(row) && row.shard == 0
  {
    var body := record[..|record| - 1];
    SplitSound(body, 0);
    var split := Split(body, 0);
    var inner := split.rest[1..|split.rest| - 1];
    FieldsSound(split.fields);
    UnescapeSound(inner, "");
    QuotedSplits(split.rest);
    var row := Decode(record).row;
    assert row.payload[0..] == row.payload;
    LineAssembles(record, body, Joined(split.fields), split.rest, inner);
    assert ReadsAsRow(split.fields, row);
  }

  // --------------------------------------------------------------- one accepted file

  /** The later row can stand behind the earlier one in a file. */
  predicate Behind(a: AuditRow, b: AuditRow) {
    && a.venue == b.venue && a.symbol == b.symbol
    && (a.epoch < b.epoch || (a.epoch == b.epoch && a.connSeq < b.connSeq))
  }

  /** Valid rows of shard zero, of one venue and symbol, in strictly increasing order. */
  predicate InOrder(rows: seq<AuditRow>) {
    && (forall i :: 0 <= i < |rows| ==> ValidAuditRow(rows[i]) && rows[i].shard == 0)
    && (forall i, j :: 0 <= i < j < |rows| ==> Behind(rows[i], rows[j]))
  }

  /** What the sequence check reports. */
  lemma SequenceDecides(a: AuditRow, b: AuditRow)
    ensures var r := CheckSequence(IdOf(a), b);
            && (r.InSequence? <==> Behind(a, b)) && CheckSequence(NoRows, b).InSequence?
            && (r == OutOfSequence(ChangingVenue) <==> a.venue != b.venue)
            && (r == OutOfSequence(ChangingSymbol) <==> a.venue == b.venue && a.symbol != b.symbol)
            && (r == OutOfSequence(DecreasingEpoch) <==>
                  a.venue == b.venue && a.symbol == b.symbol && b.epoch < a.epoch)
            && (r == OutOfSequence(NonIncreasingSequence) <==>
                  a.venue == b.venue && a.symbol == b.symbol && b.epoch == a.epoch && b.connSeq <= a.connSeq)
  {
  }

  lemma {:induction false} WritableAfter(a: AuditRow, rows: seq<AuditRow>)
    ensures WritableRows(IdOf(a), rows) <==> InOrder(rows) && forall i :: 0 <= i < |rows| ==> Behind(a, rows[i])
    decreases |rows|
  {
    if rows != [] {
      SequenceDecides(a, rows[0]);
      WritableAfter(rows[0], rows[1..]);
      OrderCons(rows[0], rows[1..]);
      assert [rows[0]] + rows[1..] == rows;
      if WritableRows(IdOf(a), rows) {
        forall i | 0 <= i < |rows| ensures Behind(a, rows[i]) {
          assert i > 0 ==> rows[i] == rows[1..][i - 1];
        }
      }
    }
  }

  lemma OrderCons(first: AuditRow, rest: seq<AuditRow>)
    ensures InOrder([first] + rest)
            <==> && ValidAuditRow(first) && first.shard == 0 && InOrder(rest)
                 && forall i :: 0 <= i < |rest| ==> Behind(first, rest[i])
  {
    var all := [first] + rest;
    assert all[0] == first && forall i :: 0 <= i < |rest| ==> all[i + 1] == rest[i];
    if InOrder(all) {
      forall i | 0 <= i < |rest| ensures ValidAuditRow(rest[i]) && rest[i].shard == 0 && Behind(first, rest[i]) {
        assert all[i + 1] == rest[i];
      }
      forall i, j | 0 <= i < j < |rest| ensures Behind(rest[i], rest[j]) {
        assert Behind(all[i + 1], all[j + 1]);
      }
    }
  }

  /** The rows a file can hold are exactly the valid rows of shard zero, of one venue and
      symbol, in strictly increasing (epoch, sequence). */
  lemma WritableMeansInOrder(rows: seq<AuditRow>)
    ensures WritableRows(NoRows, rows) <==> InOrder(rows)
  {
    if rows != [] {
      WritableAfter(rows[0], rows[1..]);
      OrderCons(rows[0], rows[1..]);
      assert [rows[0]] + rows[1..] == rows;
    }
  }

  lemma {:induction false} ReadRowsAreWritable(bytes: string, id: FileId)
    ensures WritableRows(id, ReadRows(bytes, id).rows)
    decreases |bytes|
  {
    var framed := Frame(bytes, 0, FieldStart);
    if framed.Record? && Decode(bytes[..framed.size]).Row? {
      DecodeSound(bytes[..framed.size]);
      var row := Decode(bytes[..framed.size]).row;
      if CheckSequence(id, row).InSequence? {
        ReadRowsAreWritable(bytes[framed.size..], IdOf(row));
        var rest := ReadRows(bytes[framed.size..], IdOf(row));
        assert ([row] + rest.rows)[1..] == rest.rows;
      }
    }
  }

  /** Whatever the bytes of a file, the rows read from it are in order; and written again they
      are read back exactly. */
  lemma ReadFileIsSound(bytes: string)
    ensures var rows := ReadFile(bytes).rows; InOrder(rows) && ReadFile(FileText(rows)) == FileContents(rows, CleanEnd)
  {
    var framed := Frame(bytes, 0, FieldStart);
    if framed.Record? {
      ReadRowsAreWritable(bytes[framed.size..], NoRows);
    }
    WritableMeansInOrder(ReadFile(bytes).rows);
    FileRoundTrip(ReadFile(bytes).rows);
  }

  // ------------------------------------------------------ nothing is skipped

  /** The lines are those of the rows, one by one, and make up the text. */
  ghost predicate LinesOf(text: string, lines: seq<string>, rows: seq<AuditRow>) {
    && |lines| == |rows| && text == Together(lines)
    && forall i :: 0 <= i < |rows| ==> IsLineOf(lines[i], rows[i])
  }

  function Together(lines: seq<string>): string {
    if lines == [] then "" else lines[0] + Together(lines[1..])
  }

  lemma LinesCons(line: string, row: AuditRow, text: string, lines: seq<string>, rows: seq<AuditRow>)
    requires IsLineOf(line, row) && LinesOf(text, lines, rows)
    ensures LinesOf(line + text, [line] + lines, [row] + rows)
  {
    assert ([line] + lines)[1..] == lines;
  }

  lemma {:induction false} CleanRowsAreAll(bytes: string, id: FileId) returns (lines: seq<string>)
    requires ReadRows(bytes, id).ending.CleanEnd?
    ensures LinesOf(bytes, lines, ReadRows(bytes, id).rows)
    decreases |bytes|
  {
    var framed := Frame(bytes, 0, FieldStart);
    if framed.EndOfFile? {
      FrameEnds(bytes, 0, FieldStart);
      lines := [];
    } else {
      var line, text := bytes[..framed.size], bytes[framed.size..];
      var row := Decode(line).row;
      DecodeSound(line);
      var rest := CleanRowsAreAll(text, IdOf(row));
      LinesCons(line, row, text, rest, ReadRows(text, IdOf(row)).rows);
      assert line + text == bytes;
      lines := [line] + rest;
    }
  }

  lemma {:induction false} FrameEnds(bytes: string, n: nat, state: FrameState)
    requires n <= |bytes| && Frame(bytes, n, state).EndOfFile?
    ensures n == 0 && bytes == ""
    decreases |bytes| - n
  {
    if n < |bytes| {
      FrameEnds(bytes, n + 1, FrameNext(state, bytes[n]).state);
    }
  }

  /** A file read to a clean end is the header and one line for each row, and nothing else: no
      line is skipped. */
  lemma CleanFileIsAll(bytes: string) returns (lines: seq<string>)
    requires ReadFile(bytes).ending.CleanEnd?
    ensures |AUDIT_HEADER| <= |bytes| && bytes[..|AUDIT_HEADER|] == AUDIT_HEADER
    ensures LinesOf(bytes[|AUDIT_HEADER|..], lines, ReadFile(bytes).rows)
  {
    var size := Frame(bytes, 0, FieldStart).size;
    assert bytes[..size] == AUDIT_HEADER;
    lines := CleanRowsAreAll(bytes[size..], NoRows);
  }
}
