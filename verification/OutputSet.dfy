/** The set of output files of a live capture (src/csv_output_set.cpp): what the writer
    thread's contract about write_batch, flush_all and close_all rests on. */
module OutputSet {
  import opened Types
  import opened WriterRing
  import opened FileSink

  /** What a sink shows: its row counts, the records offered to it, and whether it is free of
      errors and open. */
  datatype SinkView = SinkView(written: nat, buffered: nat, records: seq<string>, ok: bool, isOpen: bool)

  ghost function ViewOf(s: Sink): SinkView
    reads s
  {
    SinkView(s.rowsWritten, s.bufferedRows, s.offered, s.error.NoError?, s.isOpen)
  }

  /** The rows all sinks have accepted, and those of them that are in the files. */
  function Taken(views: seq<SinkView>): nat {
    if views == [] then 0
    else var last := views[|views| - 1]; Taken(views[..|views| - 1]) + last.written + last.buffered
  }

  function Written(views: seq<SinkView>): (n: nat)
    ensures n <= Taken(views)
  {
    if views == [] then 0 else Written(views[..|views| - 1]) + views[|views| - 1].written
  }

  lemma {:induction false} ViewUpdate(views: seq<SinkView>, k: nat, v: SinkView)
    requires k < |views|
    ensures Taken(views[k := v]) == Taken(views) - views[k].written - views[k].buffered + v.written + v.buffered
    ensures Written(views[k := v]) == Written(views) - views[k].written + v.written
    decreases |views|
  {
    var n := |views| - 1;
    if k == n {
      assert views[k := v][..n] == views[..n];
    } else {
      ViewUpdate(views[..n], k, v);
      assert views[k := v][..n] == views[..n][k := v];
    }
  }

  /** With empty buffers everything taken is in the files. */
  lemma {:induction false} EmptyBuffers(views: seq<SinkView>)
    requires forall i :: 0 <= i < |views| ==> views[i].buffered == 0
    ensures Written(views) == Taken(views)
    decreases |views|
  {
    if views != [] {
      EmptyBuffers(views[..|views| - 1]);
    }
  }

  /** Different sinks share nothing. */
  ghost predicate Apart(x: Sink, y: Sink) {
    x != y && x.file != y.file && x.buffer != y.buffer
  }

  twostate lemma SinkFrames(s: Sink)
    requires old(s.Valid()) && unchanged(s, s.file, s.buffer)
    ensures s.Valid() && ViewOf(s) == old(ViewOf(s))
  {
  }

  /** The sinks of one kind of file, one per target. */
  class Column {
    const sinks: seq<Sink>
    ghost var views: seq<SinkView>
    ghost const Repr: set<object>

    constructor (sinks: seq<Sink>, ghost repr: set<object>)
      requires forall i :: 0 <= i < |sinks| ==> sinks[i].Valid()
      requires forall i :: 0 <= i < |sinks| ==> sinks[i] in repr && sinks[i].file in repr && sinks[i].buffer in repr
      requires forall i, j :: 0 <= i < j < |sinks| ==> Apart(sinks[i], sinks[j])
      ensures this.sinks == sinks && Repr == repr && Valid()
    {
      this.sinks, Repr := sinks, repr;
      views := seq(|sinks|, i requires 0 <= i < |sinks| reads sinks => ViewOf(sinks[i]));
    }

    ghost predicate Separate() {
      && (forall i :: 0 <= i < |sinks| ==> sinks[i] in Repr && sinks[i].file in Repr && sinks[i].buffer in Repr)
      && (forall i, j :: 0 <= i < j < |sinks| ==> Apart(sinks[i], sinks[j]))
    }

    ghost predicate Shown(i: nat)
      requires i < |sinks|
      reads this, sinks[i], sinks[i].file, sinks[i].buffer
    {
      sinks[i].Valid() && i < |views| && views[i] == ViewOf(sinks[i])
    }

    ghost predicate Valid()
      reads this, Repr
    {
      && Separate() && this !in Repr && |views| == |sinks|
      && (forall i :: 0 <= i < |sinks| ==> Shown(i))
    }

    /** A change of one sink leaves the others as they were. */
    twostate lemma OthersKeep(k: nat)
      requires k < |sinks| && old(Valid()) && Separate() && this !in Repr
      requires Shown(k) && |views| == |sinks| && views == old(views)[k := views[k]]
      requires forall i :: 0 <= i < |sinks| && i != k ==> unchanged(sinks[i], sinks[i].file, sinks[i].buffer)
      ensures Valid()
    {
      forall i | 0 <= i < |sinks| ensures Shown(i) {
        if i != k {
          assert old(Shown(i));
          SinkFrames(sinks[i]);
        }
      }
    }

    /** append_record of sink k. */
    method Append(k: nat, record: string) returns (ok: bool)
      requires Valid() && k < |sinks|
      modifies this, sinks[k], sinks[k].file, sinks[k].buffer
      ensures Valid() && views == old(views)[k := views[k]]
      ensures var u, v := old(views[k]), views[k];
              && v.ok == ok && (ok ==> u.ok && u.isOpen) && v.isOpen == u.isOpen && v.records == u.records + [record]
              && v.written + v.buffered == u.written + u.buffered + (if ok then 1 else 0) && u.written <= v.written
    {
      assert Shown(k);
      ok := sinks[k].Append(record);
      views := views[k := ViewOf(sinks[k])];
      OthersKeep(k);
    }

    /** flush of sink k. */
    method Flush(k: nat) returns (ok: bool)
      requires Valid() && k < |sinks|
      modifies this, sinks[k], sinks[k].file, sinks[k].buffer
      ensures Valid() && views == old(views)[k := views[k]]
      ensures var u, v := old(views[k]), views[k];
              && v.ok == ok && v.isOpen == u.isOpen && v.records == u.records && (ok ==> v.buffered == 0)
              && v.written + v.buffered == u.written + u.buffered && u.written <= v.written
    {
      assert Shown(k);
      ok := sinks[k].Flush();
      views := views[k := ViewOf(sinks[k])];
      OthersKeep(k);
    }

    /** close of sink k. */
    method Close(k: nat) returns (ok: bool)
      requires Valid() && k < |sinks|
      modifies this, sinks[k], sinks[k].file, sinks[k].buffer
      ensures Valid() && views == old(views)[k := views[k]]
      ensures var u, v := old(views[k]), views[k];
              && v.ok == ok && !v.isOpen && v.records == u.records && (ok ==> v.buffered == 0)
              && v.written + v.buffered == u.written + u.buffered && u.written <= v.written
    {
      assert Shown(k);
      ok := sinks[k].Close();
      views := views[k := ViewOf(sinks[k])];
      OthersKeep(k);
    }

    /** A sink that was closed without an error has a complete file. */
    lemma ClosedIsComplete(k: nat)
      requires Valid() && k < |sinks| && views[k].ok && !views[k].isOpen
      ensures sinks[k].file.contents == sinks[k].header + Concat(views[k].records)
    {
      assert Shown(k);
      var s := sinks[k];
      assert s.offered[..s.rowsWritten] == s.offered;
    }
  }

  datatype SetError = NoSetError | SetClosed | InvalidSetTarget | InvalidSetBatch | FileFailure(index: nat, audit: bool)

  /** valid_batch_contract of a live output set. */
  predicate LiveBatch(b: Batch) {
    b.hasAudit == (b.audit != "") && b.hasBook == (b.book != "") && (b.hasBook ==> b.hasAudit)
  }

  twostate lemma ColumnFrames(c: Column)
    requires old(c.Valid()) && unchanged(c) && unchanged(c.Repr)
    ensures c.Valid()
  {
    forall i | 0 <= i < |c.sinks| ensures c.Shown(i) {
      assert old(c.Shown(i));
      SinkFrames(c.sinks[i]);
    }
  }

  /** Before the first error every sink is in order, and open until all are closed. */
  ghost predicate Healthy(views: seq<SinkView>, isOpen: bool) {
    forall i :: 0 <= i < |views| ==> views[i].ok && views[i].isOpen == isOpen
  }

  /** One more row was taken by sink k, or its append failed. */
  ghost predicate Appended(before: seq<SinkView>, after: seq<SinkView>, k: nat, record: string, ok: bool) {
    && k < |before| == |after| && after == before[k := after[k]]
    && after[k].records == before[k].records + [record]
    && Taken(after) == Taken(before) + (if ok then 1 else 0) && Written(before) <= Written(after)
  }

  /** Sink k was flushed or closed: the records stay, and rows move to the file. */
  ghost predicate Settled(before: seq<SinkView>, after: seq<SinkView>, k: nat, ok: bool, isOpen: bool) {
    && k < |before| == |after| && after == before[k := after[k]]
    && after[k].records == before[k].records && after[k].ok == ok && after[k].isOpen == isOpen
    && (ok ==> after[k].buffered == 0)
    && Taken(after) == Taken(before) && Written(before) <= Written(after)
  }

  /** The same of all sinks before position n. */
  ghost predicate SettledUpTo(before: seq<SinkView>, after: seq<SinkView>, n: nat) {
    && |after| == |before| && (forall i :: 0 <= i < |after| ==> after[i].records == before[i].records)
    && (forall i :: n <= i < |after| ==> after[i] == before[i])
    && Taken(after) == Taken(before) && Written(before) <= Written(after)
  }

  /** Without an error so far: the buffers before position n are empty, and the sinks there
      are open or closed as said. */
  ghost predicate Drained(views: seq<SinkView>, n: nat, isOpen: bool) {
    && (forall i :: 0 <= i < n && i < |views| ==> views[i].ok && views[i].buffered == 0 && views[i].isOpen == isOpen)
    && (forall i :: n <= i < |views| ==> views[i].ok && views[i].isOpen)
  }

  lemma SettleStep(before: seq<SinkView>, mid: seq<SinkView>, after: seq<SinkView>, k: nat, ok: bool, isOpen: bool)
    requires SettledUpTo(before, mid, k) && Settled(mid, after, k, ok, isOpen)
    ensures SettledUpTo(before, after, k + 1)
  {
  }

  lemma DrainStep(mid: seq<SinkView>, after: seq<SinkView>, k: nat, isOpen: bool)
    requires Drained(mid, k, isOpen) && Settled(mid, after, k, true, isOpen)
    ensures Drained(after, k + 1, isOpen)
  {
  }

  lemma DrainEnd(views: seq<SinkView>, isOpen: bool)
    requires Drained(views, |views|, isOpen)
    ensures Healthy(views, isOpen) && Written(views) == Taken(views)
  {
    EmptyBuffers(views);
  }

  /** The audit and the order-book file of every target. */
  class OutputSet {
    const audits: Column
    const books: Column
    var closed: bool
    var error: SetError

    constructor (audits: Column, books: Column)
      requires audits.Valid() && books.Valid() && |audits.sinks| == |books.sinks| && audits != books
      requires audits.Repr !! books.Repr && {audits as object, books} !! audits.Repr + books.Repr
      requires Healthy(audits.views, true) && Healthy(books.views, true)
      ensures this.audits == audits && this.books == books && !closed && error.NoSetError? && Valid()
    {
      this.audits, this.books, closed, error := audits, books, false, NoSetError;
    }

    ghost predicate Separate() {
      && |audits.sinks| == |books.sinks| && audits != books && audits.Repr !! books.Repr
      && {this as object, audits, books} !! audits.Repr && {this as object, audits, books} !! books.Repr
    }

    ghost predicate Valid()
      reads this, audits, books, audits.Repr, books.Repr
    {
      && Separate() && audits.Valid() && books.Valid()
      && (error.NoSetError? ==> Healthy(audits.views, !closed) && Healthy(books.views, !closed))
    }

    /** What the writer thread knows of the set. */
    ghost function Counts(): Output
      reads this, audits, books
    {
      Output(Taken(audits.views), Written(audits.views), Taken(books.views), Written(books.views), !error.NoSetError?)
    }

    method AppendAudit(k: nat, record: string) returns (ok: bool)
      requires Valid() && error.NoSetError? && !closed && k < |audits.sinks|
      modifies this`error, audits, audits.Repr
      ensures Valid() && (ok <==> error.NoSetError?) && Appended(old(audits.views), audits.views, k, record, ok)
      ensures !ok ==> error == FileFailure(k, true)
    {
      ghost var before := audits.views;
      ok := audits.Append(k, record);
      ViewUpdate(before, k, audits.views[k]);
      ColumnFrames(books);
      if !ok {
        error := FileFailure(k, true);
      }
    }

    method AppendBook(k: nat, record: string) returns (ok: bool)
      requires Valid() && error.NoSetError? && !closed && k < |books.sinks|
      modifies this`error, books, books.Repr
      ensures Valid() && (ok <==> error.NoSetError?) && Appended(old(books.views), books.views, k, record, ok)
      ensures !ok ==> error == FileFailure(k, false)
    {
      ghost var before := books.views;
      ok := books.Append(k, record);
      ViewUpdate(before, k, books.views[k]);
      ColumnFrames(audits);
      if !ok {
        error := FileFailure(k, false);
      }
    }

    /** write_batch: both rows are handed to the target's sinks, in order, or the first error
        is latched; the sinks of no other target are touched. */
    method WriteBatch(k: nat, b: Batch) returns (ok: bool)
      requires Valid()
      modifies this`error, audits, audits.Repr, books, books.Repr
      ensures Valid() && (ok <==> error.NoSetError?)
      ensures WriteContract(old(Counts()), b, Counts())
      ensures ok ==> old(error).NoSetError? && !closed && k < |audits.sinks| && LiveBatch(b)
      ensures if ok && b.hasAudit then Appended(old(audits.views), audits.views, k, b.audit, true)
              else ok ==> audits.views == old(audits.views)
      ensures if ok && b.hasBook then Appended(old(books.views), books.views, k, b.book, true)
              else ok ==> books.views == old(books.views)
      ensures if k < |audits.sinks| then
                && audits.views == old(audits.views)[k := audits.views[k]]
                && books.views == old(books.views)[k := books.views[k]]
              else audits.views == old(audits.views) && books.views == old(books.views)
      ensures old(error).NoSetError? && !ok ==>
                if closed then error == SetClosed
                else if k >= |audits.sinks| then error == InvalidSetTarget
                else if !LiveBatch(b) then error == InvalidSetBatch
                else error == FileFailure(k, true) || error == FileFailure(k, false)
    {
      if !error.NoSetError? {
        return false;
      }
      if closed {
        error := SetClosed;
        return false;
      }
      if k >= |audits.sinks| {
        error := InvalidSetTarget;
        return false;
      }
      if !LiveBatch(b) {
        error := InvalidSetBatch;
        return false;
      }
      ok := true;
      if b.hasAudit {
        ok := AppendAudit(k, b.audit);
      }
      if ok && b.hasBook {
        ok := AppendBook(k, b.book);
      }
    }

    /** Latch the error of one file. */
    method Latch(ok: bool, k: nat, audit: bool)
      modifies this`error
      ensures error == if ok || !old(error).NoSetError? then old(error) else FileFailure(k, audit)
    {
      if !ok && error.NoSetError? {
        error := FileFailure(k, audit);
      }
    }

    method FlushTarget(k: nat) returns (auditOk: bool, bookOk: bool)
      requires Separate() && audits.Valid() && books.Valid() && k < |audits.sinks|
      modifies this`error, audits, audits.Repr, books, books.Repr
      ensures audits.Valid() && books.Valid()
      ensures Settled(old(audits.views), audits.views, k, auditOk, old(audits.views[k].isOpen))
      ensures Settled(old(books.views), books.views, k, bookOk, old(books.views[k].isOpen))
      ensures error.NoSetError? <==> old(error).NoSetError? && auditOk && bookOk
    {
      ghost var a, b := audits.views, books.views;
      auditOk := audits.Flush(k);
      ColumnFrames(books);
      Latch(auditOk, k, true);
      ViewUpdate(a, k, audits.views[k]);
      label L:
      bookOk := books.Flush(k);
      ColumnFrames@L(audits);
      Latch(bookOk, k, false);
      ViewUpdate(b, k, books.views[k]);
    }

    method CloseTarget(k: nat) returns (auditOk: bool, bookOk: bool)
      requires Separate() && audits.Valid() && books.Valid() && k < |audits.sinks|
      modifies this`error, audits, audits.Repr, books, books.Repr
      ensures audits.Valid() && books.Valid()
      ensures Settled(old(audits.views), audits.views, k, auditOk, false)
      ensures Settled(old(books.views), books.views, k, bookOk, false)
      ensures error.NoSetError? <==> old(error).NoSetError? && auditOk && bookOk
    {
      ghost var a, b := audits.views, books.views;
      auditOk := audits.Close(k);
      ColumnFrames(books);
      Latch(auditOk, k, true);
      ViewUpdate(a, k, audits.views[k]);
      label L:
      bookOk := books.Close(k);
      ColumnFrames@L(audits);
      Latch(bookOk, k, false);
      ViewUpdate(b, k, books.views[k]);
    }

    /** flush_all: without an error every accepted row is in its file. */
    method FlushAll() returns (ok: bool)
      requires Valid()
      modifies this`error, audits, audits.Repr, books, books.Repr
      ensures Valid() && (ok <==> error.NoSetError?) && FlushContract(old(Counts()), Counts())
      ensures SettledUpTo(old(audits.views), audits.views, |audits.sinks|)
      ensures SettledUpTo(old(books.views), books.views, |books.sinks|)
    {
      if closed {
        if error.NoSetError? {
          error := SetClosed;
        }
        return false;
      }
      var n := |audits.sinks|;
      var k := 0;
      while k < n
        invariant k <= n && audits.Valid() && books.Valid()
        invariant SettledUpTo(old(audits.views), audits.views, k) && SettledUpTo(old(books.views), books.views, k)
        invariant error.NoSetError? ==>
                    old(error).NoSetError? && Drained(audits.views, k, true) && Drained(books.views, k, true)
      {
        ghost var a, b := audits.views, books.views;
        var auditOk, bookOk := FlushTarget(k);
        SettleStep(old(audits.views), a, audits.views, k, auditOk, audits.views[k].isOpen);
        SettleStep(old(books.views), b, books.views, k, bookOk, books.views[k].isOpen);
        if error.NoSetError? {
          DrainStep(a, audits.views, k, true);
          DrainStep(b, books.views, k, true);
        }
        k := k + 1;
      }
      if error.NoSetError? {
        DrainEnd(audits.views, true);
        DrainEnd(books.views, true);
      }
      ok := error.NoSetError?;
    }

    /** close_all: without an error every file is complete. */
    method CloseAll() returns (ok: bool)
      requires Valid()
      modifies this, audits, audits.Repr, books, books.Repr
      ensures Valid() && closed && (ok <==> error.NoSetError?) && (ok ==> old(error).NoSetError?)
      ensures !old(closed) ==> FlushContract(old(Counts()), Counts())
      ensures SettledUpTo(old(audits.views), audits.views, |audits.sinks|)
      ensures SettledUpTo(old(books.views), books.views, |books.sinks|)
      ensures ok ==> forall k :: 0 <= k < |audits.sinks| ==>
                && audits.sinks[k].file.contents == audits.sinks[k].header + Concat(audits.views[k].records)
                && books.sinks[k].file.contents == books.sinks[k].header + Concat(books.views[k].records)
    {
      if !closed {
        CloseTargets();
      }
      ok := error.NoSetError?;
      if ok {
        forall k | 0 <= k < |audits.sinks|
          ensures audits.sinks[k].file.contents == audits.sinks[k].header + Concat(audits.views[k].records)
          ensures books.sinks[k].file.contents == books.sinks[k].header + Concat(books.views[k].records)
        {
          audits.ClosedIsComplete(k);
          books.ClosedIsComplete(k);
        }
      }
    }

    method CloseTargets()
      requires Valid() && !closed
      modifies this, audits, audits.Repr, books, books.Repr
      ensures Valid() && closed && FlushContract(old(Counts()), Counts())
              && (error.NoSetError? ==> old(error).NoSetError?)
      ensures SettledUpTo(old(audits.views), audits.views, |audits.sinks|)
      ensures SettledUpTo(old(books.views), books.views, |books.sinks|)
    {
      var n := |audits.sinks|;
      var k := 0;
      while k < n
        invariant k <= n && audits.Valid() && books.Valid()
        invariant SettledUpTo(old(audits.views), audits.views, k) && SettledUpTo(old(books.views), books.views, k)
        invariant error.NoSetError? ==>
                    old(error).NoSetError? && Drained(audits.views, k, false) && Drained(books.views, k, false)
      {
        ghost var a, b := audits.views, books.views;
        var auditOk, bookOk := CloseTarget(k);
        SettleStep(old(audits.views), a, audits.views, k, auditOk, audits.views[k].isOpen);
        SettleStep(old(books.views), b, books.views, k, bookOk, books.views[k].isOpen);
        if error.NoSetError? {
          DrainStep(a, audits.views, k, false);
          DrainStep(b, books.views, k, false);
        }
        k := k + 1;
      }
      closed := true;
      if error.NoSetError? {
        DrainEnd(audits.views, false);
        DrainEnd(books.views, false);
      }
    }

    /** metrics: the sums over all targets. */
    method Metrics() returns (auditWritten: nat, auditBuffered: nat, bookWritten: nat, bookBuffered: nat)
      requires Valid()
      ensures auditWritten == Counts().auditWritten && auditWritten + auditBuffered == Counts().auditTaken
      ensures bookWritten == Counts().bookWritten && bookWritten + bookBuffered == Counts().bookTaken
    {
      auditWritten, auditBuffered, bookWritten, bookBuffered := 0, 0, 0, 0;
      var k := 0;
      while k < |audits.sinks|
        invariant k <= |audits.sinks|
        invariant auditWritten == Written(audits.views[..k]) && auditWritten + auditBuffered == Taken(audits.views[..k])
        invariant bookWritten == Written(books.views[..k]) && bookWritten + bookBuffered == Taken(books.views[..k])
      {
        assert audits.Shown(k) && books.Shown(k);
        assert audits.views[..k + 1][..k] == audits.views[..k] && books.views[..k + 1][..k] == books.views[..k];
        auditWritten := auditWritten + audits.sinks[k].rowsWritten;
        auditBuffered := auditBuffered + audits.sinks[k].bufferedRows;
        bookWritten := bookWritten + books.sinks[k].rowsWritten;
        bookBuffered := bookBuffered + books.sinks[k].bufferedRows;
        k := k + 1;
      }
      assert audits.views[..k] == audits.views && books.views[..k] == books.views;
    }
  }
}
