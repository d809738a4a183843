/**
 A run of the completeness protocol that meets every hypothesis of `NoSilentMiss`: a source is read twice, it posts
 between the reads, and a resumed attempt of the second window comes before the one that proves it.
 */
module ProtocolExample {
  import opened Common
  import opened Evidence
  import opened TraversalProof
  import opened TraversalExamples
  import opened CompletenessEngine
  import opened CursorProof

  // ---------------------------------------------------------------- rounds

  /** One run of the program for one source: plan, start, finish. */
  function Round(runId: string, id: string, start: Time, end: Time, finish: Call): seq<Call> {
    [Call.Plan(runId, [id], [PlannedSource(true, ALPHA)], start, end), Call.Start(runId, ALPHA), finish]
  }

  function StartedRow(t: Tables, runId: string, id: string, start: Time, end: Time): Attempt {
    NewRow(id, runId, ALPHA, 0, start, end).(
      attempted := true, status := Attempting, errorClass := "",
      attemptNumber := StartedCount(t.attempts, ALPHA, start, end) + 1, cursorBefore := CursorOf(t.cursors, ALPHA))
  }

  function Started(t: Tables, runId: string, id: string, start: Time, end: Time): Tables {
    t.(attempts := t.attempts + [StartedRow(t, runId, id, start, end)])
  }

  predicate Unused(t: Tables, runId: string, id: string) {
    RowOf(t.attempts, id) == |t.attempts| && RowFor(t.attempts, runId, ALPHA) == |t.attempts|
  }

  lemma Planned(t: Tables, runId: string, id: string, start: Time, end: Time)
    requires start < end && Unused(t, runId, id)
    ensures Step(t, Call.Plan(runId, [id], [PlannedSource(true, ALPHA)], start, end))
            == t.(attempts := t.attempts + [NewRow(id, runId, ALPHA, 0, start, end)])
  {
    var source := PlannedSource(true, ALPHA);
    assert [source][..0] == [] && [id][..0] == [];
    assert PlanRows(t.attempts, runId, [], [], start, end) == t.attempts;
  }

  lemma StartedCountSnoc(rows: seq<Attempt>, row: Attempt, start: Time, end: Time)
    requires !row.attempted
    ensures StartedCount(rows + [row], ALPHA, start, end) == StartedCount(rows, ALPHA, start, end)
  {
    assert (rows + [row])[..|rows|] == rows;
  }

  lemma Begun(t: Tables, runId: string, id: string, start: Time, end: Time)
    requires Unused(t, runId, id)
    ensures AfterStart(t.(attempts := t.attempts + [NewRow(id, runId, ALPHA, 0, start, end)]), runId, ALPHA)
            == Started(t, runId, id, start, end)
  {
    var row := NewRow(id, runId, ALPHA, 0, start, end);
    var longer := t.attempts + [row];
    assert RowFor(longer, runId, ALPHA) == |t.attempts| by {
      assert longer[|t.attempts|] == row;
      assert forall k :: 0 <= k < |t.attempts| ==> longer[k] == t.attempts[k];
    }
    StartedCountSnoc(t.attempts, row, start, end);
    assert longer[|t.attempts| := StartedRow(t, runId, id, start, end)] == t.attempts + [StartedRow(t, runId, id, start, end)];
  }

  lemma RunSnoc(calls: seq<Call>, call: Call)
    ensures Run(calls + [call]) == Step(Run(calls), call)
  {
    assert (calls + [call])[..|calls|] == calls;
  }

  lemma HonestSnoc(calls: seq<Call>, call: Call, published: string -> seq<Entry>, seen: nat -> seq<Entry>)
    requires HonestRun(calls, published, seen)
    requires ShippedCore(call) && HonestFinish(Run(calls), call, published, seen(|calls|))
    ensures HonestRun(calls + [call], published, seen)
  {
    var longer := calls + [call];
    forall n | 0 <= n < |longer| ensures ShippedCore(longer[n]) && HonestFinish(Run(longer[..n]), longer[n], published, seen(n)) {
      if n < |calls| {
        HonestStays(calls, longer, n, published, seen);
      } else {
        assert longer[..n] == calls;
      }
    }
  }

  lemma HonestStays(calls: seq<Call>, longer: seq<Call>, n: nat, published: string -> seq<Entry>, seen: nat -> seq<Entry>)
    requires HonestRun(calls, published, seen) && n < |calls| < |longer| && longer[..|calls|] == calls
    ensures ShippedCore(longer[n]) && HonestFinish(Run(longer[..n]), longer[n], published, seen(n))
  {
    assert longer[..n] == calls[..n] && longer[n] == calls[n];
  }

  /** A round appends one started row and finishes it; it is honest when its finish is. */
  lemma RoundRuns(calls: seq<Call>, runId: string, id: string, start: Time, end: Time, finish: Call,
                  published: string -> seq<Entry>, seen: nat -> seq<Entry>) returns (longer: seq<Call>)
    requires HonestRun(calls, published, seen) && start < end && Unused(Run(calls), runId, id)
    requires ShippedCore(finish)
    requires HonestFinish(Started(Run(calls), runId, id, start, end), finish, published, seen(|calls| + 2))
    ensures longer == calls + Round(runId, id, start, end, finish)
    ensures Run(longer) == Step(Started(Run(calls), runId, id, start, end), finish)
    ensures HonestRun(longer, published, seen)
  {
    var planned := PlanRound(calls, runId, id, start, end, published, seen);
    var started := StartRound(calls, planned, runId, id, start, end, published, seen);
    longer := FinishRound(started, Started(Run(calls), runId, id, start, end), finish, published, seen);
    Assembled(calls, runId, id, start, end, finish);
  }

  lemma Assembled(calls: seq<Call>, runId: string, id: string, start: Time, end: Time, finish: Call)
    ensures var round := Round(runId, id, start, end, finish);
      calls + [round[0]] + [round[1]] + [round[2]] == calls + round
  {
  }

  lemma FinishRound(started: seq<Call>, t: Tables, finish: Call, published: string -> seq<Entry>, seen: nat -> seq<Entry>)
    returns (longer: seq<Call>)
    requires HonestRun(started, published, seen) && Run(started) == t
    requires ShippedCore(finish) && HonestFinish(t, finish, published, seen(|started|))
    ensures longer == started + [finish] && Run(longer) == Step(t, finish) && HonestRun(longer, published, seen)
  {
    longer := started + [finish];
    RunSnoc(started, finish);
    HonestSnoc(started, finish, published, seen);
  }

  lemma PlanRound(calls: seq<Call>, runId: string, id: string, start: Time, end: Time,
                  published: string -> seq<Entry>, seen: nat -> seq<Entry>) returns (planned: seq<Call>)
    requires HonestRun(calls, published, seen) && start < end && Unused(Run(calls), runId, id)
    ensures planned == calls + [Call.Plan(runId, [id], [PlannedSource(true, ALPHA)], start, end)]
    ensures Run(planned) == Run(calls).(attempts := Run(calls).attempts + [NewRow(id, runId, ALPHA, 0, start, end)])
    ensures HonestRun(planned, published, seen)
  {
    var plan := Call.Plan(runId, [id], [PlannedSource(true, ALPHA)], start, end);
    planned := calls + [plan];
    Planned(Run(calls), runId, id, start, end);
    RunSnoc(calls, plan);
    HonestSnoc(calls, plan, published, seen);
  }

  lemma StartRound(calls: seq<Call>, planned: seq<Call>, runId: string, id: string, start: Time, end: Time,
                   published: string -> seq<Entry>, seen: nat -> seq<Entry>) returns (started: seq<Call>)
    requires Unused(Run(calls), runId, id) && HonestRun(planned, published, seen)
    requires Run(planned) == Run(calls).(attempts := Run(calls).attempts + [NewRow(id, runId, ALPHA, 0, start, end)])
    ensures started == planned + [Call.Start(runId, ALPHA)]
    ensures Run(started) == Started(Run(calls), runId, id, start, end)
    ensures HonestRun(started, published, seen)
  {
    started := planned + [Call.Start(runId, ALPHA)];
    Begun(Run(calls), runId, id, start, end);
    RunSnoc(planned, Call.Start(runId, ALPHA));
    HonestSnoc(planned, Call.Start(runId, ALPHA), published, seen);
  }

  /** The row a round starts is the one its finish names. */
  lemma FinishesLast(t: Tables, runId: string, id: string, start: Time, end: Time)
    requires Unused(t, runId, id)
    ensures RowOf(Started(t, runId, id, start, end).attempts, id) == |t.attempts|
  {
    var longer := Started(t, runId, id, start, end).attempts;
    assert longer[|t.attempts|].id == id;
    assert forall k :: 0 <= k < |t.attempts| ==> longer[k] == t.attempts[k];
  }

  // ---------------------------------------------------------------- the reads as evidence

  lemma CollectedWhen(timeline: seq<Entry>, row: Attempt, ev: Record, pages: seq<ProviderPage>, slices: seq<Slice>,
                      lastValid: bool, nextCursor: string, resumed: bool, crossed: bool)
    requires row.source != "" && HonestTraversal(timeline, pages, slices) && nextCursor != ""
    requires ev == Close(Traverse(Fresh(row.source, Some(row.windowStart), Some(row.windowEnd)), pages), lastValid, nextCursor, resumed, crossed)
    requires forall j :: 0 <= j < |timeline| && row.windowStart <= timeline[j].at < row.windowEnd ==> Accounted(row.source, pages, timeline[j].id)
    ensures Collected(timeline, row, ev)
  {
    assert CollectedBy(timeline, row, ev, pages, slices, lastValid, nextCursor, resumed, crossed);
  }

  predicate Completes(ev: Record) {
    EvaluateCompleteness(ProofInputs(ev, false).0) == Complete
  }

  lemma FirstIsCollected(row: Attempt)
    requires row.source == ALPHA && row.windowStart == 0 && row.windowEnd == 10
    ensures Collected(TIMELINE, row, ReadEvidence()) && Shows(TIMELINE, LATER, row) && Completes(ReadEvidence())
  {
    HonestRead();
    WindowIsAccounted();
    CollectedWhen(TIMELINE, row, ReadEvidence(), PAGES, SLICES, true, "bottom-2", false, true);
    LateEnough(TIMELINE, [Entry("40", 15)], row);
  }

  lemma LaterIsCollected(row: Attempt)
    requires row.source == ALPHA && row.windowStart == 10 && row.windowEnd == 20
    ensures Collected(LATER, row, LaterEvidence()) && Shows(LATER, LATER, row) && Completes(LaterEvidence())
  {
    LaterRead();
    LaterWindowIsAccounted();
    CollectedWhen(LATER, row, LaterEvidence(), [NEWEST], [Slice(0, 2)], true, "bottom-3", false, true);
  }

  // ---------------------------------------------------------------- the run

  /** The evidence of the three reads. */
  datatype Reads = Reads(first: Record, resumed: Record, later: Record)

  function Finish(id: string, ev: Record, verdict: Status, end: Time): Call {
    Call.Finish(id, ev, |ev.observations|, "", Answer(verdict), Answer(end))
  }

  function Published(source: string): seq<Entry> { LATER }

  /** The first read was served the shorter timeline. */
  function Seen(n: nat): seq<Entry> { if n < 3 then TIMELINE else LATER }

  predicate OnceRead(t: Tables) {
    && |t.attempts| == 1 && t.attempts[0].id == "a1" && t.attempts[0].runId == "r1" && t.attempts[0].source == ALPHA
    && t.attempts[0].cursorAdvanced && t.attempts[0].windowStart == 0
    && t.cursors == map[ALPHA := Cursor(10, "a1", 1)]
  }

  predicate ThenResumed(t: Tables) {
    && |t.attempts| == 2 && OnceRead(t.(attempts := t.attempts[..1]))
    && t.attempts[1].id == "a2" && t.attempts[1].runId == "r2" && t.attempts[1].status == Partial && !t.attempts[1].cursorAdvanced
  }

  predicate ThenRead(t: Tables) {
    && |t.attempts| == 3 && OnceRead(Tables(t.attempts[..1], map[ALPHA := Cursor(10, "a1", 1)], t.links))
    && t.attempts[1].status == Partial && t.attempts[2].status == Complete
    && t.cursors == map[ALPHA := Cursor(20, "a3", 3)]
  }

  lemma HonestWhen(t: Tables, runId: string, id: string, start: Time, end: Time, ev: Record, snapshot: seq<Entry>)
    requires Unused(t, runId, id)
    requires Collected(snapshot, StartedRow(t, runId, id, start, end), ev) && Shows(snapshot, LATER, StartedRow(t, runId, id, start, end))
    ensures HonestFinish(Started(t, runId, id, start, end), Finish(id, ev, Complete, end), Published, snapshot)
  {
    FinishesLast(t, runId, id, start, end);
  }

  /** A complete attempt whose window continues the cursor moves it. */
  lemma CompleteFinish(t: Tables, runId: string, id: string, start: Time, end: Time, ev: Record)
    requires Unused(t, runId, id) && start < end
    requires ALPHA in t.cursors ==> start <= t.cursors[ALPHA].through < end && t.cursors[ALPHA].sequence <= |t.attempts|
    ensures var next := Step(Started(t, runId, id, start, end), Finish(id, ev, Complete, end));
      && |next.attempts| == |t.attempts| + 1 && next.attempts[..|t.attempts|] == t.attempts
      && (var row := next.attempts[|t.attempts|];
          row.id == id && row.runId == runId && row.source == ALPHA && row.windowStart == start && row.status == Complete && row.cursorAdvanced)
      && next.cursors == t.cursors[ALPHA := Cursor(end, id, |t.attempts| + 1)]
  {
    FinishesLast(t, runId, id, start, end);
  }

  lemma PartialFinish(t: Tables, runId: string, id: string, start: Time, end: Time, ev: Record)
    requires Unused(t, runId, id)
    ensures var next := Step(Started(t, runId, id, start, end), Finish(id, ev, Partial, end));
      && |next.attempts| == |t.attempts| + 1 && next.attempts[..|t.attempts|] == t.attempts
      && (var row := next.attempts[|t.attempts|]; row.id == id && row.runId == runId && row.status == Partial && !row.cursorAdvanced)
      && next.cursors == t.cursors
  {
    FinishesLast(t, runId, id, start, end);
  }

  lemma FirstRound(ev: Record) returns (calls: seq<Call>)
    requires Collected(TIMELINE, StartedRow(EMPTY, "r1", "a1", 0, 10), ev) && Completes(ev)
    ensures |calls| == 3 && calls[2] == Finish("a1", ev, Complete, 10)
    ensures HonestRun(calls, Published, Seen) && OnceRead(Run(calls))
  {
    LateEnough(TIMELINE, [Entry("40", 15)], StartedRow(EMPTY, "r1", "a1", 0, 10));
    HonestWhen(EMPTY, "r1", "a1", 0, 10, ev, TIMELINE);
    CompleteFinish(EMPTY, "r1", "a1", 0, 10, ev);
    calls := RoundRuns([], "r1", "a1", 0, 10, Finish("a1", ev, Complete, 10), Published, Seen);
  }

  /** The resumed attempt is finished as a partial one and moves nothing. */
  lemma SecondRound(calls: seq<Call>, ev: Record) returns (longer: seq<Call>)
    requires |calls| == 3 && HonestRun(calls, Published, Seen) && OnceRead(Run(calls))
    requires ev.resumed && ev.rawCount > 0
    ensures |longer| == 6 && longer[..3] == calls && longer[5] == Finish("a2", ev, Partial, 20)
    ensures HonestRun(longer, Published, Seen) && ThenResumed(Run(longer))
  {
    PartialFinish(Run(calls), "r2", "a2", 10, 20, ev);
    longer := RoundRuns(calls, "r2", "a2", 10, 20, Finish("a2", ev, Partial, 20), Published, Seen);
  }

  lemma ThirdRound(calls: seq<Call>, ev: Record) returns (longer: seq<Call>)
    requires |calls| == 6 && HonestRun(calls, Published, Seen) && ThenResumed(Run(calls))
    requires Collected(LATER, StartedRow(Run(calls), "r3", "a3", 10, 20), ev) && Completes(ev)
    ensures |longer| == 9 && longer[..6] == calls && longer[8] == Finish("a3", ev, Complete, 20)
    ensures HonestRun(longer, Published, Seen) && ThenRead(Run(longer))
  {
    var t := Run(calls);
    ThirdUnused(t);
    ThirdSettles(t, ev);
    longer := RoundRuns(calls, "r3", "a3", 10, 20, Finish("a3", ev, Complete, 20), Published, Seen);
  }

  lemma ThirdUnused(t: Tables)
    requires ThenResumed(t)
    ensures Unused(t, "r3", "a3")
  {
    assert t.attempts[..1][0] == t.attempts[0];
    assert forall k :: 0 <= k < |t.attempts| ==> t.attempts[k].id != "a3" && t.attempts[k].runId != "r3";
  }

  lemma ThirdSettles(t: Tables, ev: Record)
    requires ThenResumed(t) && Unused(t, "r3", "a3")
    requires Collected(LATER, StartedRow(t, "r3", "a3", 10, 20), ev)
    ensures HonestFinish(Started(t, "r3", "a3", 10, 20), Finish("a3", ev, Complete, 20), Published, LATER)
    ensures ThenRead(Step(Started(t, "r3", "a3", 10, 20), Finish("a3", ev, Complete, 20)))
  {
    HonestWhen(t, "r3", "a3", 10, 20, ev, LATER);
    CompleteFinish(t, "r3", "a3", 10, 20, ev);
    var next := Step(Started(t, "r3", "a3", 10, 20), Finish("a3", ev, Complete, 20));
    assert t.attempts == next.attempts[..2] && next.attempts[..1] == t.attempts[..1] && next.attempts[1] == t.attempts[1];
  }

  lemma ThreeRounds(w: Reads) returns (calls: seq<Call>)
    requires Completes(w.first) && Completes(w.later) && w.resumed.resumed && w.resumed.rawCount > 0
    requires forall row: Attempt :: row.source == ALPHA && row.windowStart == 0 && row.windowEnd == 10 ==> Collected(TIMELINE, row, w.first)
    requires forall row: Attempt :: row.source == ALPHA && row.windowStart == 10 && row.windowEnd == 20 ==> Collected(LATER, row, w.later)
    ensures |calls| == 9 && calls[2] == Finish("a1", w.first, Complete, 10)
    ensures calls[5] == Finish("a2", w.resumed, Partial, 20) && calls[8] == Finish("a3", w.later, Complete, 20)
    ensures HonestRun(calls, Published, Seen) && ThenRead(Run(calls))
  {
    var one := FirstRound(w.first);
    var two := SecondRound(one, w.resumed);
    calls := ThirdRound(two, w.later);
    assert calls[5] == calls[..6][5] && calls[2] == calls[..6][2] && two[2] == two[..3][2];
  }

  /** By `NoSilentMiss`, the posts from before and after the first read were all observed by complete attempts. */
  lemma NothingMissedHere(i: nat) returns (calls: seq<Call>, k: nat)
    requires i < |LATER| && LATER[i].at >= 0
    ensures |calls| == 9 && calls[2] == Finish("a1", ReadEvidence(), Complete, 10)
    ensures calls[5] == Finish("a2", ResumedEvidence(), Partial, 20) && calls[8] == Finish("a3", LaterEvidence(), Complete, 20)
    ensures HonestRun(calls, Published, Seen) && ThenRead(Run(calls))
    ensures var a := Run(calls).attempts;
      k < |a| && a[k].status == Complete && a[k].payload.Final? && LATER[i].id in a[k].payload.observations
  {
    var w := TheReads();
    calls := ThreeRounds(w);
    k := FromTheStart(calls, i);
  }

  lemma TheReads() returns (w: Reads)
    ensures w == Reads(ReadEvidence(), ResumedEvidence(), LaterEvidence())
    ensures Completes(w.first) && Completes(w.later) && w.resumed.resumed && w.resumed.rawCount > 0
    ensures forall row: Attempt :: row.source == ALPHA && row.windowStart == 0 && row.windowEnd == 10 ==> Collected(TIMELINE, row, w.first)
    ensures forall row: Attempt :: row.source == ALPHA && row.windowStart == 10 && row.windowEnd == 20 ==> Collected(LATER, row, w.later)
  {
    w := Reads(ReadEvidence(), ResumedEvidence(), LaterEvidence());
    ResumedRead();
    FirstIsCollected(NewRow("a1", "r1", ALPHA, 0, 0, 10));
    LaterIsCollected(NewRow("a3", "r3", ALPHA, 0, 10, 20));
    forall row: Attempt | row.source == ALPHA && row.windowStart == 0 && row.windowEnd == 10 ensures Collected(TIMELINE, row, w.first) {
      FirstIsCollected(row);
    }
    forall row: Attempt | row.source == ALPHA && row.windowStart == 10 && row.windowEnd == 20 ensures Collected(LATER, row, w.later) {
      LaterIsCollected(row);
    }
  }

  lemma FromTheStart(calls: seq<Call>, i: nat) returns (k: nat)
    requires HonestRun(calls, Published, Seen) && ThenRead(Run(calls))
    requires i < |LATER| && 0 <= LATER[i].at
    ensures var a := Run(calls).attempts;
      k < |a| && a[k].status == Complete && a[k].payload.Final? && LATER[i].id in a[k].payload.observations
  {
    var t := Run(calls);
    assert t.attempts[..1][0] == t.attempts[0];
    assert LATER[i].at < 20;
    k := NoSilentMiss(calls, Published, Seen, ALPHA, 0, i);
  }
}
