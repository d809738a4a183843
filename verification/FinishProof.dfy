/**
 What a finished attempt says, in terms of the core's replies and the tables before the call: when it is complete, when
 it moves its source's cursor, and what is kept of an attempt that never got that far.
 */
module FinishProof {
  import opened Common
  import opened Evidence
  import opened TraversalProof
  import opened CompletenessEngine
  import opened CursorProof

  // ---------------------------------------------------------------- verdicts

  /**
   The shipped rule, on the evidence itself: complete is a read without error, unresumed, valid and in order, that
   observed all it expected, and proved its lower boundary, or exhausted the source without crossing it unproven.
   */
  lemma CompleteIff(ev: Record, failed: bool)
    ensures EvaluateCompleteness(ProofInputs(ev, failed).0) == Complete <==>
              && !failed && !ev.resumed && ev.pages > 0 && ev.validResponse && ev.orderValid
              && ev.expected - {""} <= ev.observations
              && (ev.lowerBoundaryProven || (ev.exhausted && !ev.lowerBoundary))
  {
    var missing := ev.expected - {""} - (ev.observations - {""});
    assert missing == {} <==> ev.expected - {""} <= ev.observations;
  }

  /** What is not complete is partial when any post was seen, and else unproven. */
  lemma IncompleteIs(ev: Record, failed: bool)
    requires EvaluateCompleteness(ProofInputs(ev, failed).0) != Complete
    ensures EvaluateCompleteness(ProofInputs(ev, failed).0) == if ev.rawCount > 0 then Partial else Unproven
  {
  }

  // ---------------------------------------------------------------- one finish

  /** The call finishes the open attempt at `i`. */
  predicate Finishes(t: Tables, call: Call, i: nat) {
    call.Finish? && i < |t.attempts| && i == RowOf(t.attempts, call.id) && t.attempts[i].attempted && !t.attempts[i].finalized
  }

  /** The window continues what the source's cursor covers, and nothing newer has moved the cursor. */
  predicate Continuing(t: Tables, i: nat)
    requires i < |t.attempts|
  {
    var row := t.attempts[i];
    row.source in t.cursors ==>
      row.windowStart <= t.cursors[row.source].through < row.windowEnd && t.cursors[row.source].sequence < i + 1
  }

  /** The one way to move a cursor: a complete verdict, a continuing window, and the core's agreement to its very end. */
  lemma CursorMovesIff(t: Tables, call: Call, i: nat)
    requires Finishes(t, call, i)
    ensures var row, next := t.attempts[i], Step(t, call);
      if call.evaluated == Answer(Complete) && Continuing(t, i) && call.advance == Answer(row.windowEnd)
      then next.cursors == t.cursors[row.source := Cursor(row.windowEnd, row.id, i + 1)]
      else next.cursors == t.cursors
  {
  }

  /** A finish stores complete only if it moved the cursor, or did not have to: an old or a detached window. */
  lemma CompleteIsStoredIff(t: Tables, call: Call, i: nat)
    requires Finishes(t, call, i)
    ensures |Step(t, call).attempts| == |t.attempts| && Step(t, call).attempts[i].finalized
    ensures Step(t, call).attempts[i].status == Complete
            <==> call.evaluated == Answer(Complete) && (Continuing(t, i) ==> call.advance == Answer(t.attempts[i].windowEnd))
  {
  }

  /** A core that fails, in the verdict or in the advance, leaves an unproven attempt that says so. */
  lemma CoreFailureIsTold(t: Tables, call: Call, i: nat)
    requires Finishes(t, call, i)
    requires (call.evaluated.Answer? && call.evaluated.value != Attempting)
             ==> call.evaluated == Answer(Complete) && Continuing(t, i) && call.advance != Answer(t.attempts[i].windowEnd)
    ensures var row := Step(t, call).attempts[i];
      row.status == Unproven && row.errorClass == CORE_UNAVAILABLE && !row.cursorAdvanced && Step(t, call).cursors == t.cursors
  {
    assert Bounded(CORE_UNAVAILABLE) == CORE_UNAVAILABLE;
  }

  /** Any other verdict is stored as it is, with the error of the read. */
  lemma VerdictIsStored(t: Tables, call: Call, i: nat)
    requires Finishes(t, call, i) && call.evaluated.Answer? && call.evaluated.value != Attempting
    requires call.evaluated == Answer(Complete) && Continuing(t, i) ==> call.advance == Answer(t.attempts[i].windowEnd)
    ensures var row := Step(t, call).attempts[i];
      && row.status == call.evaluated.value && |row.errorClass| <= 160 && row.errorClass <= call.error
      && (|call.error| <= 160 ==> row.errorClass == call.error)
  {
  }

  /** The stored cursors tell how the source's cursor stands after the call; a gap is a complete window beyond the cursor. */
  lemma FinishTellsCursor(t: Tables, call: Call, i: nat)
    requires Invariant(t) && Finishes(t, call, i)
    ensures var row, next := Step(t, call).attempts[i], Step(t, call);
      && row.cursorBefore == t.attempts[i].cursorBefore
      && row.cursorAfter == CursorOf(next.cursors, row.source)
      && row.retained == Max(0, call.retained) && row.payload.Final? && row.payload.observations == call.ev.observations
      && (row.payload.cursorGap <==> call.evaluated == Answer(Complete) && row.source in t.cursors
                                     && t.cursors[row.source].through < row.windowStart)
  {
    assert RowSound(t.attempts[i]) && BeforeIsPast(t.attempts[i], t.cursors);
  }

  /** The stored kind tells why: the proof of a complete read, the failure of the core or of the provider, or what the read lacked. */
  lemma KindTells(t: Tables, call: Call, i: nat)
    requires Finishes(t, call, i) && |call.error| <= 160
    ensures var row, ev := Step(t, call).attempts[i], call.ev;
      && row.payload.Final?
      && (row.status == Complete && ev.exhausted ==> row.payload.kind == ValidatedExhaustion)
      && (row.status == Complete && !ev.exhausted && ev.lowerBoundaryProven ==> row.payload.kind == ValidatedLowerBoundary)
      && (row.status != Complete && row.errorClass == CORE_UNAVAILABLE ==> row.payload.kind == CoreUnavailable)
      && (row.status != Complete && row.errorClass !in {"", CORE_UNAVAILABLE} ==> row.payload.kind == ProviderFailure(row.status == Partial))
      && (row.status != Complete && row.errorClass == "" && ev.resumed ==> row.payload.kind == ResumedCheckpoint(row.status == Partial))
      && (row.status == Unproven && row.errorClass == "" && !ev.resumed && ev.pages == 0 ==> row.payload.kind == NoValidatedPage)
      && (row.status == Partial && row.errorClass == "" && !ev.resumed && !(ev.expected - {""} <= ev.observations) ==> row.payload.kind == CoverageGap(true))
      && (row.status == Partial && row.errorClass == "" && !ev.resumed && ev.expected - {""} <= ev.observations && !ev.orderValid
          ==> row.payload.kind == OrderInvalid(true))
  {
    var missing := call.ev.expected - {""} - (call.ev.observations - {""});
    assert missing == {} <==> call.ev.expected - {""} <= call.ev.observations;
    assert Bounded(CORE_UNAVAILABLE) == CORE_UNAVAILABLE;
  }

  /** A finish touches its own row and source only. */
  lemma FinishIsLocal(t: Tables, call: Call, i: nat)
    requires Finishes(t, call, i)
    ensures Step(t, call).links == t.links
    ensures forall k :: 0 <= k < |t.attempts| && k != i ==> Step(t, call).attempts[k] == t.attempts[k]
    ensures forall s :: s != t.attempts[i].source ==> (s in Step(t, call).cursors <==> s in t.cursors)
    ensures forall s :: s in t.cursors && s != t.attempts[i].source ==> Step(t, call).cursors[s] == t.cursors[s]
  {
    CursorMovesIff(t, call, i);
  }

  // ---------------------------------------------------------------- complete attempts and cursors

  /** The source's cursor has reached the window's end, or a newer attempt moved it, or the window lay beyond it. */
  predicate KeepsPace(row: Attempt, i: nat, cursors: map<string, Cursor>) {
    row.status == Complete ==>
      && row.source in cursors && row.payload.Final?
      && (cursors[row.source].through >= row.windowEnd || cursors[row.source].sequence >= i + 1 || row.payload.cursorGap)
  }

  ghost predicate AllKeepPace(t: Tables) {
    forall i :: 0 <= i < |t.attempts| ==> KeepsPace(t.attempts[i], i, t.cursors)
  }

  lemma FinishedKeepsPace(t: Tables, call: Call, i: nat)
    requires Invariant(t) && Finishes(t, call, i)
    ensures KeepsPace(Step(t, call).attempts[i], i, Step(t, call).cursors)
  {
    CompleteIsStoredIff(t, call, i);
    CursorMovesIff(t, call, i);
    FinishTellsCursor(t, call, i);
  }

  lemma PaceStays(row: Attempt, i: nat, before: map<string, Cursor>, after: map<string, Cursor>)
    requires KeepsPace(row, i, before)
    requires row.source in before ==>
      row.source in after && after[row.source].through >= before[row.source].through && after[row.source].sequence >= before[row.source].sequence
    ensures KeepsPace(row, i, after)
  {
  }

  lemma StepKeepsPace(t: Tables, call: Call)
    requires Invariant(t) && AllKeepPace(t)
    ensures AllKeepPace(Step(t, call))
  {
    StepExtends(t, call);
    var next := Step(t, call);
    forall i | 0 <= i < |next.attempts| ensures KeepsPace(next.attempts[i], i, next.cursors) {
      if Finishes(t, call, i) {
        FinishedKeepsPace(t, call, i);
      } else if i < |t.attempts| && next.attempts[i] == t.attempts[i] {
        PaceStays(t.attempts[i], i, t.cursors, next.cursors);
      } else {
        ChangedIsIncomplete(t, call, i);
      }
    }
  }

  /** No call but a finish makes an attempt complete. */
  lemma ChangedIsIncomplete(t: Tables, call: Call, i: nat)
    requires Invariant(t) && i < |Step(t, call).attempts| && !Finishes(t, call, i)
    requires i < |t.attempts| ==> Step(t, call).attempts[i] != t.attempts[i]
    ensures Step(t, call).attempts[i].status != Complete
  {
    if i < |t.attempts| {
      assert RowSound(t.attempts[i]);
      StepExtends(t, call);
      if call.Plan? && |call.ids| == |call.sources| {
        PlanAppends(t.attempts, call.runId, call.ids, call.sources, call.start, call.end);
      }
    } else {
      PlannedNotComplete(t.attempts, call.runId, call.ids, call.sources, call.start, call.end, i);
    }
  }

  /** In every run, for any replies of the core: no complete attempt has left its source's cursor behind unaccounted for. */
  lemma {:induction false} RunKeepsPace(calls: seq<Call>)
    ensures AllKeepPace(Run(calls))
  {
    if calls != [] {
      var init := calls[..|calls| - 1];
      RunKeepsPace(init);
      RunInvariant(init);
      StepKeepsPace(Run(init), calls[|calls| - 1]);
    }
  }

  // ---------------------------------------------------------------- starting, linking, interrupting

  /** A start remembers where the cursor of its source stood. */
  lemma StartRemembers(t: Tables, call: Call, i: nat)
    requires i < |t.attempts| && i < |Step(t, call).attempts| && !t.attempts[i].attempted && Step(t, call).attempts[i].attempted
    ensures call.Start? && Step(t, call).attempts[i].cursorBefore == CursorOf(t.cursors, t.attempts[i].source)
    ensures Step(t, call).attempts[i].status == Attempting && !Step(t, call).attempts[i].finalized
  {
    if call.Plan? && |call.ids| == |call.sources| {
      PlanAppends(t.attempts, call.runId, call.ids, call.sources, call.start, call.end);
    }
  }

  /** A planned attempt that is still open starts when asked to. */
  lemma StartStarts(t: Tables, runId: string, source: string, i: nat)
    requires i < |t.attempts| && i == RowFor(t.attempts, runId, source) && !t.attempts[i].finalized
    ensures Step(t, Call.Start(runId, source)).attempts[i].attempted
  {
  }

  /** The attempt is there and open. */
  predicate OpenRow(t: Tables, id: string) {
    RowOf(t.attempts, id) < |t.attempts| && !t.attempts[RowOf(t.attempts, id)].finalized
  }

  /** The links of a run are exactly those made while their attempt was open. */
  lemma {:induction false} LinksAre(calls: seq<Call>, id: string, post: string)
    ensures (id, post) in Run(calls).links <==> exists n :: 0 <= n < |calls| && LinkedAt(calls, n, id, post)
  {
    if calls != [] {
      var init, last := calls[..|calls| - 1], calls[|calls| - 1];
      LinksAre(init, id, post);
      forall n | 0 <= n < |init| ensures LinkedAt(init, n, id, post) <==> LinkedAt(calls, n, id, post) {
        assert init[..n] == calls[..n];
      }
      LinkMakes(Run(init), last, id, post);
      assert LinkedAt(calls, |init|, id, post) <==> last == Link(id, post) && OpenRow(Run(init), id);
    }
  }

  /** That call of the run linked the post, while the attempt was open. */
  predicate LinkedAt(calls: seq<Call>, n: nat, id: string, post: string)
    requires n < |calls|
  {
    calls[n] == Link(id, post) && OpenRow(Run(calls[..n]), id)
  }

  lemma LinkMakes(t: Tables, call: Call, id: string, post: string)
    ensures (id, post) in Step(t, call).links <==> (id, post) in t.links || (call == Link(id, post) && OpenRow(t, id))
  {
  }

  /** An attempt that is interrupted keeps the progress it last noted. */
  lemma InterruptedKeepsProgress(t: Tables, id: string, ev: Record, reason: string)
    requires Invariant(t) && OpenRow(t, id)
    ensures var i := RowOf(t.attempts, id);
      var closed := Step(Step(t, Call.Checkpoint(id, ev)), CloseRun(t.attempts[i].runId, reason)).attempts;
      && i < |closed| && closed[i].finalized && closed[i].status == Unproven && closed[i].payload.Closed?
      && closed[i].payload.before == Checkpointed(ev.pages, ev.rawCount, ev.validResponse)
      && (t.attempts[i].attempted ==> closed[i].errorClass == reason && closed[i].payload.kind == Interrupted)
      && (!t.attempts[i].attempted ==> closed[i].errorClass == NOT_ATTEMPTED && closed[i].payload.kind == CompletenessEngine.Kind.NotAttempted)
  {
  }

  /** A closed attempt tells where the cursor stood: when it was started, or, unstarted, now. */
  lemma ClosedTellsCursor(t: Tables, runId: string, reason: string, i: nat)
    requires i < |t.attempts| && t.attempts[i].runId == runId && !t.attempts[i].finalized
    ensures Step(t, CloseRun(runId, reason)).attempts[i].cursorAfter
            == if t.attempts[i].attempted then t.attempts[i].cursorBefore else CursorOf(t.cursors, t.attempts[i].source)
  {
  }

  // ---------------------------------------------------------------- planning

  /** Ids that no attempt has yet, none twice. */
  ghost predicate FreshIds(attempts: seq<Attempt>, ids: seq<string>) {
    NoDuplicates(ids) && forall k, j :: 0 <= k < |ids| && 0 <= j < |attempts| ==> attempts[j].id != ids[k]
  }

  predicate Planned(attempts: seq<Attempt>, runId: string, handle: string, start: Time, end: Time) {
    exists i :: 0 <= i < |attempts| && attempts[i].runId == runId && attempts[i].source == handle
                && attempts[i].windowStart == start && attempts[i].windowEnd == end && !attempts[i].attempted && !attempts[i].finalized
  }

  ghost predicate NewRun(attempts: seq<Attempt>, runId: string) {
    forall j :: 0 <= j < |attempts| ==> attempts[j].runId != runId
  }

  /** The row is for some enabled source. */
  predicate ForEnabled(row: Attempt, sources: seq<PlannedSource>) {
    exists k :: 0 <= k < |sources| && sources[k].enabled && row.source == HandleOf(sources[k], k)
  }

  /** A new run has an open attempt for the window for every enabled source, and for no other. */
  lemma {:induction false} PlanCovers(attempts: seq<Attempt>, runId: string, ids: seq<string>, sources: seq<PlannedSource>, start: Time, end: Time)
    requires |ids| == |sources| && FreshIds(attempts, ids) && NewRun(attempts, runId)
    ensures var rows := PlanRows(attempts, runId, ids, sources, start, end);
      && attempts <= rows
      && (forall k :: 0 <= k < |sources| && sources[k].enabled ==> Planned(rows, runId, HandleOf(sources[k], k), start, end))
      && (forall k :: 0 <= k < |sources| && sources[k].enabled && sources[k].handle != "" ==> Planned(rows, runId, sources[k].handle, start, end))
      && (forall i :: |attempts| <= i < |rows| ==> rows[i].id in ids && Opening(rows[i], runId, start, end) && ForEnabled(rows[i], sources))
  {
    if sources != [] {
      var n := |sources| - 1;
      var before := PlanRows(attempts, runId, ids[..n], sources[..n], start, end);
      PlanCovers(attempts, runId, ids[..n], sources[..n], start, end);
      forall k | 0 <= k < n && sources[k].enabled ensures Planned(before, runId, HandleOf(sources[k], k), start, end) {
        assert sources[..n][k] == sources[k];
      }
      forall i | |attempts| <= i < |before| ensures ForEnabled(before[i], sources) && before[i].id != ids[n] {
        assert ForEnabled(before[i], sources[..n]);
        ForEnabledStays(before[i], sources, n);
      }
      if sources[n].enabled {
        PlanOneMore(before, runId, ids[n], sources[n], n, start, end);
        PlannedStays(before, PlanRows(attempts, runId, ids, sources, start, end), runId, start, end);
      }
    }
  }

  lemma ForEnabledStays(row: Attempt, sources: seq<PlannedSource>, n: nat)
    requires n <= |sources| && ForEnabled(row, sources[..n])
    ensures ForEnabled(row, sources)
  {
    var fewer := sources[..n];
    var k :| 0 <= k < |fewer| && fewer[k].enabled && row.source == HandleOf(fewer[k], k);
    assert sources[k] == fewer[k];
  }

  lemma PlannedStays(before: seq<Attempt>, rows: seq<Attempt>, runId: string, start: Time, end: Time)
    requires before <= rows
    ensures forall handle :: Planned(before, runId, handle, start, end) ==> Planned(rows, runId, handle, start, end)
  {
    assert forall i :: 0 <= i < |before| ==> rows[i] == before[i];
  }

  predicate Opening(row: Attempt, runId: string, start: Time, end: Time) {
    row.runId == runId && row.windowStart == start && row.windowEnd == end && !row.attempted && !row.finalized
  }

  lemma PlanOneMore(before: seq<Attempt>, runId: string, id: string, source: PlannedSource, n: nat, start: Time, end: Time)
    requires forall j :: 0 <= j < |before| ==> before[j].id != id
    requires forall j :: 0 <= j < |before| && before[j].runId == runId ==> Opening(before[j], runId, start, end)
    ensures var rows := Inserted(before, NewRow(id, runId, HandleOf(source, n), n, start, end));
      && before <= rows && Planned(rows, runId, HandleOf(source, n), start, end)
      && forall i :: |before| <= i < |rows| ==> rows[i].source == HandleOf(source, n) && rows[i].id == id && Opening(rows[i], runId, start, end)
  {
    var row := NewRow(id, runId, HandleOf(source, n), n, start, end);
    var rows := Inserted(before, row);
    if RowFor(before, runId, row.source) == |before| {
      assert rows[|before|] == row;
    } else {
      assert Opening(before[RowFor(before, runId, row.source)], runId, start, end);
    }
  }
}
