/** The replay of one audit file (replay_market_data_file in src/market_data_replay.cpp) with
    the reader and the symbol state as objects. */
module ReplayLoop {
  import opened CsvFormat
  import opened CsvDecode
  import opened AuditFile
  import opened EventProcessor
  import opened LivePipeline
  import opened LiveReplay
  import opened ReplayReader
  import opened LiveObjects

  /** Put order-book rows in front of those still to come. */
  function Emit(books: seq<string>, r: Replay): Replay {
    Replay(books + r.books, r.end)
  }

  lemma EmitMore(books: seq<string>, more: seq<string>, r: Replay)
    ensures Emit(books, Emit(more, r)) == Emit(books + more, r)
  {
    assert books + (more + r.books) == (books + more) + r.books;
  }

  /** One row of the replay loop. */
  lemma ReplayStep(env: Env, st: SymbolState, row: AuditRow, rest: FileContents, o: Outcome)
    requires o == Process(env.parse, st, ContextOfRow(row), row.payload, ReplayMode)
    ensures ReplayContents(env, st, FileContents([row] + rest.rows, rest.ending))
         == if o.error != EventError.NoError then Replay([], EventProcessFailed)
            else if o.status.PreAuditRejected? then Replay([], PayloadRejected)
            else Emit(if o.batch.hasBook then [o.batch.book] else [], ReplayContents(env, o.state, rest))
  {
    assert ([row] + rest.rows)[1..] == rest.rows;
  }

  /** What a row does to the replay so far. */
  method ReplayRow(env: Env, cell: SymbolCell, row: AuditRow, out: RowBatch, books: seq<string>,
                   ghost rest: FileContents, ghost goal: Replay) returns (stop: bool, r: Replay)
    requires goal == Emit(books, ReplayContents(env, cell.View(), FileContents([row] + rest.rows, rest.ending)))
    modifies cell, out
    ensures stop ==> r == goal
    ensures !stop ==> goal == Emit(r.books, ReplayContents(env, cell.View(), rest))
  {
    ghost var st := cell.View();
    var p := cell.ProcessEvent(env.parse, ContextOfRow(row), row.payload, ReplayMode, out);
    ghost var o := Process(env.parse, st, ContextOfRow(row), row.payload, ReplayMode);
    ReplayStep(env, st, row, rest, o);
    assert books + [] == books;
    if p.error != EventError.NoError {
      return true, Replay(books, EventProcessFailed);
    }
    if p.status.PreAuditRejected? {
      return true, Replay(books, PayloadRejected);
    }
    ghost var row' := if o.batch.hasBook then [o.batch.book] else [];
    EmitMore(books, row', ReplayContents(env, o.state, rest));
    stop, r := false, Replay(books + if out.batch.hasBook then [out.batch.book] else [], ReplayOk);
  }

  /** The loop from the first row on. */
  method ReplayRest(env: Env, reader: Reader, cell: SymbolCell, first: AuditRow, ghost goal: Replay) returns (r: Replay)
    requires reader.Valid() && reader.error.NoError? && !reader.endOfFile
    requires var rest := ReadRows(reader.rest, reader.id);
             goal == ReplayContents(env, cell.View(), FileContents([first] + rest.rows, rest.ending))
    modifies reader, reader.input, reader.readBuffer, reader.recordBuffer, reader.payload, cell
    ensures r == goal || r.end == InputError(ReadFailed)
  {
    var out := new RowBatch();
    ghost var contents := ReadRows(reader.rest, reader.id);
    assert [] + goal.books == goal.books;
    var stop, so := ReplayRow(env, cell, first, out, [], contents, goal);
    if stop {
      return so;
    }
    while true
      invariant reader.Valid() && reader.error.NoError? && !reader.endOfFile && fresh(out)
      invariant goal == Emit(so.books, ReplayContents(env, cell.View(), ReadRows(reader.rest, reader.id)))
      decreases |reader.rest|
    {
      var next := reader.Next();
      assert so.books + [] == so.books;
      match next
      case AtEnd => return Replay(so.books, ReplayOk);
      case ReadStopped(e) => return Replay(so.books, InputError(e));
      case NextRow(row) =>
        ghost var rest := ReadRows(reader.rest, reader.id);
        stop, so := ReplayRow(env, cell, row, out, so.books, rest, goal);
        if stop {
          return so;
        }
    }
  }

  /** replay_market_data_file: chunked reading, in-place state, and exactly the rows that
      ReplayBytes says, unless a read fails. */
  method ReplayFile(env: Env, input: InputFile) returns (r: Replay)
    requires input.Valid() && input.position == 0
    modifies input
    ensures r == ReplayBytes(env, input.bytes) || r.end == InputError(ReadFailed)
  {
    var reader, error := Open(input);
    if reader == null {
      return Replay([], InputError(error));
    }
    var next := reader.Next();
    match next
    case AtEnd => r := Replay([], EmptyInput);
    case ReadStopped(e) => r := Replay([], InputError(e));
    case NextRow(row) =>
      var cell := new SymbolCell(row.venue, row.symbol, env.instrument(row.symbol));
      r := ReplayRest(env, reader, cell, row, ReplayBytes(env, input.bytes));
  }
}
