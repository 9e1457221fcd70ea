// The event worker bound to one action code: each pass reads one batch of
// due events, runs the handler on each and marks an event processed only
// when its handler returned normally. Outside testing a failing handler is
// logged and skipped; under testing its exception propagates, and passes
// repeat until one processes nothing. The handler is the oracle `ok`: it
// tells whether the handler returns normally for an event.
module Worker {
  import opened Wrappers
  import opened Events

  /** The exception a failing handler raises, as it leaves a testing pass. */
  const HandlerRaised := "handler raised"

  /** One pass over the batch `evs`, from the current rows, with `processed`
      telling whether an earlier event of the pass was processed. Returns
      the rows after the pass and `processed_events`, or the exception. */
  function Pass(rows: seq<EventRow>, evs: seq<Event>, ok: Event -> bool, testing: bool, processed: bool)
    : (seq<EventRow>, Result<bool>)
    decreases |evs|
  {
    if evs == [] then (rows, Success(processed))
    else if ok(evs[0]) then Pass(MarkProcessed(rows, evs[0].id), evs[1..], ok, testing, true)
    else if testing then (rows, Failure(HandlerRaised))
    else Pass(rows, evs[1..], ok, testing, processed)
  }

  /** One iteration of the `while True` loop of `event_processor`. */
  method Poll(table: EventTable, code: ActionCode, now: int, ok: Event -> bool, testing: bool)
    returns (r: Result<bool>)
    requires table.Valid()
    modifies table
    ensures table.Valid()
    ensures (table.rows, r) == Pass(old(table.rows), Batch(old(table.rows), Name(code), now, DefaultBatch), ok, testing, false)
  {
    var evs := table.GetEvents(code, now, DefaultBatch);
    var processed := false;
    for k := 0 to |evs|
      invariant table.Valid()
      invariant Pass(table.rows, evs[k..], ok, testing, processed) == Pass(old(table.rows), evs, ok, testing, false)
    {
      assert evs[k..][1..] == evs[k + 1..];
      if ok(evs[k]) {
        table.DeleteEvent(evs[k].id);
        processed := true;
      } else if testing {
        return Failure(HandlerRaised);
      }
    }
    return Success(processed);
  }

  /** The testing-mode loop: passes repeat while the last one processed an
      event; a handler exception ends the loop. */
  method Drain(table: EventTable, code: ActionCode, now: int, ok: Event -> bool) returns (r: Result<()>)
    requires table.Valid()
    modifies table
    ensures table.Valid()
    ensures r.Success? ==> forall i :: 0 <= i < |table.rows| ==> !Due(table.rows[i], Name(code), now)
  {
    while true
      invariant table.Valid()
      decreases DueCount(table.rows, Name(code), now)
    {
      ghost var before := table.rows;
      var res := Poll(table, code, now, ok, true);
      if res.Failure? {
        return Failure(res.error);
      }
      if !res.value {
        EmptyPassLeavesNothingDue(before, Name(code), now, ok);
        return Success(());
      }
      ProcessingPassShrinks(before, Name(code), now, ok);
    }
  }

  /** The number of rows that are due for `code`. */
  function DueCount(rows: seq<EventRow>, code: string, now: int): nat
  {
    if rows == [] then 0
    else DueCount(rows[..|rows| - 1], code, now) + (if Due(rows[|rows| - 1], code, now) then 1 else 0)
  }

  // ---------------------------------------------------------------------
  // Failure isolation outside testing.

  /** Outside testing, a pass marks exactly the rows of events whose handler
      returned normally, changes nothing else, and reports whether it marked
      any; a failed event stays as it was. */
  lemma {:induction false} PassIsolation(rows: seq<EventRow>, evs: seq<Event>, ok: Event -> bool, processed: bool)
    ensures var (after, res) := Pass(rows, evs, ok, false, processed);
      |after| == |rows| &&
      res == Success(processed || exists k :: 0 <= k < |evs| && ok(evs[k])) &&
      forall i :: 0 <= i < |rows| ==>
        after[i] == rows[i].(isProcessed := rows[i].isProcessed || exists k :: 0 <= k < |evs| && evs[k].id == rows[i].id && ok(evs[k]))
    decreases |evs|
  {
    if evs != [] {
      var next := if ok(evs[0]) then MarkProcessed(rows, evs[0].id) else rows;
      PassIsolation(next, evs[1..], ok, processed || ok(evs[0]));
      forall i | 0 <= i < |rows|
        ensures (exists k :: 0 <= k < |evs| && evs[k].id == rows[i].id && ok(evs[k])) ==
          ((ok(evs[0]) && evs[0].id == rows[i].id) || exists k :: 0 <= k < |evs[1..]| && evs[1..][k].id == rows[i].id && ok(evs[1..][k]))
      {
        if exists k :: 0 <= k < |evs| && evs[k].id == rows[i].id && ok(evs[k]) {
          var k :| 0 <= k < |evs| && evs[k].id == rows[i].id && ok(evs[k]);
          if k > 0 {
            assert evs[1..][k - 1] == evs[k];
          }
        }
        if exists k :: 0 <= k < |evs[1..]| && evs[1..][k].id == rows[i].id && ok(evs[1..][k]) {
          var k :| 0 <= k < |evs[1..]| && evs[1..][k].id == rows[i].id && ok(evs[1..][k]);
          assert evs[k + 1] == evs[1..][k];
        }
      }
      assert (exists k :: 0 <= k < |evs| && ok(evs[k])) == (ok(evs[0]) || exists k :: 0 <= k < |evs[1..]| && ok(evs[1..][k])) by {
        if exists k :: 0 <= k < |evs| && ok(evs[k]) {
          var k :| 0 <= k < |evs| && ok(evs[k]);
          if k > 0 {
            assert evs[1..][k - 1] == evs[k];
          }
        }
        if exists k :: 0 <= k < |evs[1..]| && ok(evs[1..][k]) {
          var k :| 0 <= k < |evs[1..]| && ok(evs[1..][k]);
          assert evs[k + 1] == evs[1..][k];
        }
      }
    }
  }

  // ---------------------------------------------------------------------
  // Testing mode.

  /** Under testing a pass fails exactly when some handler in the batch
      fails, and it reports processing exactly when the batch was not empty. */
  lemma {:induction false} PassTesting(rows: seq<EventRow>, evs: seq<Event>, ok: Event -> bool, processed: bool)
    ensures var res := Pass(rows, evs, ok, true, processed).1;
      (res.Failure? <==> exists k :: 0 <= k < |evs| && !ok(evs[k])) &&
      (res.Success? ==> res.value == (processed || evs != []))
    decreases |evs|
  {
    if evs != [] && ok(evs[0]) {
      var next := MarkProcessed(rows, evs[0].id);
      PassTesting(next, evs[1..], ok, true);
      if exists k :: 0 <= k < |evs| && !ok(evs[k]) {
        var k :| 0 <= k < |evs| && !ok(evs[k]);
        assert evs[1..][k - 1] == evs[k];
      }
      if exists k :: 0 <= k < |evs[1..]| && !ok(evs[1..][k]) {
        var k :| 0 <= k < |evs[1..]| && !ok(evs[1..][k]);
        assert evs[k + 1] == evs[1..][k];
      }
    }
  }

  /** `b` is `a` with possibly more rows marked processed. */
  predicate OnlyMarked(a: seq<EventRow>, b: seq<EventRow>)
  {
    |a| == |b| &&
    forall i :: 0 <= i < |a| ==> (a[i].isProcessed ==> b[i].isProcessed) && b[i].(isProcessed := a[i].isProcessed) == a[i]
  }

  /** No pass ever makes a row due. */
  lemma {:induction false} PassOnlyMarks(rows: seq<EventRow>, evs: seq<Event>, ok: Event -> bool, testing: bool, processed: bool)
    ensures OnlyMarked(rows, Pass(rows, evs, ok, testing, processed).0)
    decreases |evs|
  {
    if evs != [] {
      if ok(evs[0]) {
        PassOnlyMarks(MarkProcessed(rows, evs[0].id), evs[1..], ok, testing, true);
      } else if !testing {
        PassOnlyMarks(rows, evs[1..], ok, testing, processed);
      }
    }
  }

  /** Fewer rows are due after marking rows processed, strictly fewer when
      a due row was marked. */
  lemma {:induction false} DueCountMono(a: seq<EventRow>, b: seq<EventRow>, code: string, now: int)
    requires OnlyMarked(a, b)
    ensures DueCount(b, code, now) <= DueCount(a, code, now)
    ensures (exists i :: 0 <= i < |a| && Due(a[i], code, now) && b[i].isProcessed) ==> DueCount(b, code, now) < DueCount(a, code, now)
  {
    if a != [] {
      var n := |a| - 1;
      DueCountMono(a[..n], b[..n], code, now);
      if exists i :: 0 <= i < |a| && Due(a[i], code, now) && b[i].isProcessed {
        var i :| 0 <= i < |a| && Due(a[i], code, now) && b[i].isProcessed;
        if i < n {
          assert a[..n][i] == a[i] && b[..n][i] == b[i];
        }
      }
    }
  }

  /** A testing pass that reports processing has marked a due row. */
  lemma ProcessingPassShrinks(rows: seq<EventRow>, code: string, now: int, ok: Event -> bool)
    requires ValidRows(rows)
    requires var res := Pass(rows, Batch(rows, code, now, DefaultBatch), ok, true, false).1;
      res.Success? && res.value
    ensures DueCount(Pass(rows, Batch(rows, code, now, DefaultBatch), ok, true, false).0, code, now) < DueCount(rows, code, now)
  {
    var evs := Batch(rows, code, now, DefaultBatch);
    var sel := Selected(rows, code, now, DefaultBatch);
    PassTesting(rows, evs, ok, false);
    assert evs != [] && ok(evs[0]);
    SelectedAreDue(rows, code, now, DefaultBatch);
    assert sel[0] in rows;
    var i :| 0 <= i < |rows| && rows[i] == sel[0];
    assert evs[0].id == rows[i].id;
    var marked := MarkProcessed(rows, evs[0].id);
    PassOnlyMarks(marked, evs[1..], ok, true, true);
    var after := Pass(marked, evs[1..], ok, true, true).0;
    assert after[i].isProcessed;
    forall j | 0 <= j < |rows|
      ensures (rows[j].isProcessed ==> after[j].isProcessed) && after[j].(isProcessed := rows[j].isProcessed) == rows[j]
    {
      assert marked[j].(isProcessed := rows[j].isProcessed) == rows[j];
    }
    DueCountMono(rows, after, code, now);
  }

  /** A testing pass that processed nothing saw an empty batch, so nothing
      of that code is due any more. */
  lemma EmptyPassLeavesNothingDue(rows: seq<EventRow>, code: string, now: int, ok: Event -> bool)
    requires ValidRows(rows)
    requires Pass(rows, Batch(rows, code, now, DefaultBatch), ok, true, false).1 == Success(false)
    ensures Pass(rows, Batch(rows, code, now, DefaultBatch), ok, true, false).0 == rows
    ensures forall i :: 0 <= i < |rows| ==> !Due(rows[i], code, now)
  {
    var evs := Batch(rows, code, now, DefaultBatch);
    PassTesting(rows, evs, ok, false);
    assert evs == [];
    SelectedComplete(rows, code, now, DefaultBatch);
  }
}
