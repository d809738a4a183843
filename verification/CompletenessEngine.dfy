/**
 The attempt, cursor and observation tables of the completeness engine.

 `Tables` is the value of the three tables and `Step` one call; the external core's answers are
 arguments of the call, so every theorem over runs holds for any core. The class holds the same
 tables as fields and each method is proved to perform its step. Rows are only ever appended, so
 the sequence number of the row at index `i` is `i + 1`.
 */
module CompletenessEngine {
  import opened Common
  import opened Evidence
  import opened TraversalProof

  datatype Status = Unproven | Attempting | Partial | Complete

  /** An answer of the core process, or any of the failures the engine catches. */
  datatype Reply<+T> = Unavailable | Answer(value: T)

  datatype Kind =
    | ValidatedExhaustion | ValidatedLowerBoundary | CoreUnavailable
    | ProviderFailure(partial: bool) | ResumedCheckpoint(partial: bool) | CoverageGap(partial: bool)
    | OrderInvalid(partial: bool) | InvalidResponse(partial: bool) | NoValidatedPage
    | UnprovenTermination(partial: bool) | Interrupted | NotAttempted

  datatype Payload =
    | Empty
    | Checkpointed(pages: nat, rawCount: nat, validResponse: bool)
    | Final(proof: Proof, detail: Detail, observations: set<string>, kind: Kind, cursorGap: bool)
    | Closed(before: Payload, kind: Kind)

  datatype Attempt = Attempt(
    id: string, runId: string, source: string, sourceOrder: nat, windowStart: Time, windowEnd: Time,
    status: Status, attempted: bool, attemptNumber: nat, errorClass: string, retained: nat, finalized: bool,
    cursorBefore: Option<Time>, cursorAfter: Option<Time>, cursorAdvanced: bool, payload: Payload)

  datatype Cursor = Cursor(through: Time, attemptId: string, sequence: nat)

  datatype Tables = Tables(attempts: seq<Attempt>, cursors: map<string, Cursor>, links: set<(string, string)>)

  const EMPTY := Tables([], map[], {})

  const CORE_UNAVAILABLE := "EditorialCoreUnavailable"
  const NOT_ATTEMPTED := "NotAttempted"

  // ---------------------------------------------------------------- rows

  /** Index of the row with an id; the table length when there is none. */
  function RowOf(attempts: seq<Attempt>, id: string): (i: nat)
    ensures i <= |attempts|
    ensures i < |attempts| ==> attempts[i].id == id
    ensures forall k :: 0 <= k < i ==> attempts[k].id != id
  {
    if attempts == [] then 0 else if attempts[0].id == id then 0 else 1 + RowOf(attempts[1..], id)
  }

  function RowFor(attempts: seq<Attempt>, runId: string, source: string): (i: nat)
    ensures i <= |attempts|
    ensures i < |attempts| ==> attempts[i].runId == runId && attempts[i].source == source
    ensures forall k :: 0 <= k < i ==> !(attempts[k].runId == runId && attempts[k].source == source)
  {
    if attempts == [] then 0
    else if attempts[0].runId == runId && attempts[0].source == source then 0
    else 1 + RowFor(attempts[1..], runId, source)
  }

  predicate SameWindow(a: Attempt, source: string, start: Time, end: Time) {
    a.source == source && a.windowStart == start && a.windowEnd == end
  }

  /** How many attempts of one source and window were started. */
  function StartedCount(attempts: seq<Attempt>, source: string, start: Time, end: Time): nat {
    if attempts == [] then 0
    else
      var last := attempts[|attempts| - 1];
      StartedCount(attempts[..|attempts| - 1], source, start, end)
      + (if last.attempted && SameWindow(last, source, start, end) then 1 else 0)
  }

  // ---------------------------------------------------------------- the steps

  datatype PlannedSource = PlannedSource(enabled: bool, handle: string)

  function HandleOf(source: PlannedSource, index: nat): string {
    if source.handle != "" then source.handle else "invalid-source-" + Decimal(index)
  }

  /** INSERT OR IGNORE: a row whose id, or run and source, is taken leaves the table as it is. */
  function Inserted(attempts: seq<Attempt>, row: Attempt): seq<Attempt> {
    if RowOf(attempts, row.id) == |attempts| && RowFor(attempts, row.runId, row.source) == |attempts|
    then attempts + [row] else attempts
  }

  function NewRow(id: string, runId: string, handle: string, index: nat, start: Time, end: Time): Attempt {
    Attempt(id, runId, handle, index, start, end, Unproven, false, 0, NOT_ATTEMPTED, 0, false, None, None, false, Empty)
  }

  function PlanRows(attempts: seq<Attempt>, runId: string, ids: seq<string>, sources: seq<PlannedSource>, start: Time, end: Time): seq<Attempt>
    requires |ids| == |sources|
  {
    if sources == [] then attempts
    else
      var n := |sources| - 1;
      var before := PlanRows(attempts, runId, ids[..n], sources[..n], start, end);
      if sources[n].enabled
      then Inserted(before, NewRow(ids[n], runId, HandleOf(sources[n], n), n, start, end))
      else before
  }

  function CursorOf(cursors: map<string, Cursor>, source: string): Option<Time> {
    if source in cursors then Some(cursors[source].through) else None
  }

  function AfterStart(t: Tables, runId: string, source: string): Tables {
    var i := RowFor(t.attempts, runId, source);
    if i == |t.attempts| || t.attempts[i].finalized || t.attempts[i].attempted then t
    else
      var row := t.attempts[i];
      t.(attempts := t.attempts[i := row.(
        attempted := true, status := Attempting, errorClass := "",
        attemptNumber := StartedCount(t.attempts, source, row.windowStart, row.windowEnd) + 1,
        cursorBefore := CursorOf(t.cursors, source), cursorAfter := None, cursorAdvanced := false)])
  }

  function AfterCheckpoint(t: Tables, id: string, ev: Record): Tables {
    var i := RowOf(t.attempts, id);
    if i == |t.attempts| || t.attempts[i].finalized then t
    else t.(attempts := t.attempts[i := t.attempts[i].(payload := Checkpointed(ev.pages, ev.rawCount, ev.validResponse))])
  }

  function AfterLink(t: Tables, id: string, postId: string): Tables {
    var i := RowOf(t.attempts, id);
    if i == |t.attempts| || t.attempts[i].finalized then t else t.(links := t.links + {(id, postId)})
  }

  function Bounded(s: string): string {
    if |s| <= 160 then s else s[..160]
  }

  function VerdictKind(status: Status, ev: Record, detail: Detail, error: string): Kind {
    if status == Complete && detail.providerExhausted then ValidatedExhaustion
    else if status == Complete && detail.lowerBoundaryProven then ValidatedLowerBoundary
    else if error == CORE_UNAVAILABLE then CoreUnavailable
    else if status == Partial then
      if error != "" then ProviderFailure(true)
      else if ev.resumed then ResumedCheckpoint(true)
      else if detail.missing != {} then CoverageGap(true)
      else if !detail.orderValid then OrderInvalid(true)
      else if !ev.validResponse then InvalidResponse(true)
      else UnprovenTermination(true)
    else if error != "" then ProviderFailure(false)
    else if ev.resumed then ResumedCheckpoint(false)
    else if ev.pages == 0 then NoValidatedPage
    else if !ev.validResponse then InvalidResponse(false)
    else if !detail.orderValid then OrderInvalid(false)
    else if detail.missing != {} then CoverageGap(false)
    else UnprovenTermination(false)
  }

  /** The core's verdict; an answer that is no final verdict counts as no answer. */
  function Verdict(reply: Reply<Status>): Reply<Status> {
    if reply.Answer? && reply.value != Attempting then reply else Unavailable
  }

  /** May the cursor of the row's source move to the row's window end? */
  predicate MayAdvance(t: Tables, i: nat)
    requires i < |t.attempts|
  {
    var row := t.attempts[i];
    row.source !in t.cursors
    || (row.windowEnd > t.cursors[row.source].through && i + 1 > t.cursors[row.source].sequence && Contiguous(t, row))
  }

  predicate Contiguous(t: Tables, row: Attempt) {
    row.source !in t.cursors || row.windowStart <= t.cursors[row.source].through
  }

  /** What a finish settles: final status, error class, and whether the cursor moved. */
  function Settle(t: Tables, i: nat, error: string, verdict: Reply<Status>, advance: Reply<Time>): (Status, string, bool)
    requires i < |t.attempts|
  {
    var (status, err) := if verdict.Answer? then (verdict.value, error) else (Unproven, CORE_UNAVAILABLE);
    if status != Complete || !MayAdvance(t, i) then (status, err, false)
    else if advance == Answer(t.attempts[i].windowEnd) then (Complete, err, true)
    else (Unproven, CORE_UNAVAILABLE, false)
  }

  function AfterFinish(t: Tables, id: string, ev: Record, retained: int, error: string,
                       evaluated: Reply<Status>, advance: Reply<Time>): Tables {
    var i := RowOf(t.attempts, id);
    if i == |t.attempts| || !t.attempts[i].attempted || t.attempts[i].finalized then t
    else
      var row := t.attempts[i];
      var verdict := Verdict(evaluated);
      var (status, err, moved) := Settle(t, i, error, verdict, advance);
      var cursors := if moved then t.cursors[row.source := Cursor(row.windowEnd, id, i + 1)] else t.cursors;
      var after := if row.source in cursors then Some(cursors[row.source].through) else row.cursorBefore;
      var (proof, detail) := ProofInputs(ev, error != "");
      var gap := verdict == Answer(Complete) && !Contiguous(t, row);
      t.(cursors := cursors,
         attempts := t.attempts[i := row.(
           status := status, errorClass := Bounded(err), retained := Max(0, retained), finalized := true,
           cursorAfter := after, cursorAdvanced := moved && after != row.cursorBefore,
           payload := Final(proof, detail, ev.observations, VerdictKind(status, ev, detail, err), gap))])
  }

  function ClosedRow(row: Attempt, cursors: map<string, Cursor>, runId: string, reason: string): Attempt {
    if row.runId != runId || row.finalized then row
    else
      row.(status := Unproven, finalized := true, cursorAdvanced := false,
           errorClass := if row.attempted then reason else NOT_ATTEMPTED,
           cursorAfter := if row.attempted then row.cursorBefore else CursorOf(cursors, row.source),
           payload := Closed(row.payload, if row.attempted then Interrupted else NotAttempted))
  }

  function AfterClose(t: Tables, runId: string, reason: string): Tables {
    t.(attempts := seq(|t.attempts|, i requires 0 <= i < |t.attempts| => ClosedRow(t.attempts[i], t.cursors, runId, reason)))
  }

  datatype Call =
    | Plan(runId: string, ids: seq<string>, sources: seq<PlannedSource>, start: Time, end: Time)
    | Start(runId: string, source: string)
    | Checkpoint(id: string, ev: Record)
    | Link(id: string, postId: string)
    | Finish(id: string, ev: Record, retained: int, error: string, evaluated: Reply<Status>, advance: Reply<Time>)
    | CloseRun(runId: string, reason: string)

  /** The tables after a call. A call that raises leaves them as they were. */
  function Step(t: Tables, call: Call): Tables {
    match call
    case Plan(runId, ids, sources, start, end) =>
      if start >= end || |ids| != |sources| then t
      else t.(attempts := PlanRows(t.attempts, runId, ids, sources, start, end))
    case Start(runId, source) => AfterStart(t, runId, source)
    case Checkpoint(id, ev) => AfterCheckpoint(t, id, ev)
    case Link(id, postId) => AfterLink(t, id, postId)
    case Finish(id, ev, retained, error, evaluated, advance) => AfterFinish(t, id, ev, retained, error, evaluated, advance)
    case CloseRun(runId, reason) => AfterClose(t, runId, reason)
  }

  function Run(calls: seq<Call>): Tables {
    if calls == [] then EMPTY else Step(Run(calls[..|calls| - 1]), calls[|calls| - 1])
  }

  // ---------------------------------------------------------------- the engine

  class Engine {
    var attempts: seq<Attempt>
    var cursors: map<string, Cursor>
    var links: set<(string, string)>

    ghost function Value(): Tables
      reads this
    {
      Tables(attempts, cursors, links)
    }

    constructor ()
      ensures Value() == EMPTY
    {
      attempts, cursors, links := [], map[], {};
    }

    /** `ids` are the generated attempt ids, one per source; false stands for the raised error. */
    method Plan(runId: string, ids: seq<string>, sources: seq<PlannedSource>, start: Time, end: Time) returns (ok: bool)
      requires |ids| == |sources|
      modifies this`attempts
      ensures ok == (start < end)
      ensures Value() == Step(old(Value()), Call.Plan(runId, ids, sources, start, end))
    {
      if start >= end {
        return false;
      }
      for index := 0 to |sources|
        invariant attempts == PlanRows(old(attempts), runId, ids[..index], sources[..index], start, end)
        invariant cursors == old(cursors) && links == old(links)
      {
        assert ids[..index + 1][..index] == ids[..index] && sources[..index + 1][..index] == sources[..index];
        if sources[index].enabled {
          attempts := Inserted(attempts, NewRow(ids[index], runId, HandleOf(sources[index], index), index, start, end));
        }
      }
      assert ids[..|ids|] == ids && sources[..|sources|] == sources;
      ok := true;
    }

    method Start(runId: string, source: string) returns (id: Option<string>)
      modifies this`attempts
      ensures Value() == AfterStart(old(Value()), runId, source)
      ensures id.None? ==> Value() == old(Value())
      ensures id.Some? ==> exists i :: 0 <= i < |attempts| && attempts[i].id == id.value
                                       && attempts[i].attempted && !old(attempts)[i].attempted
    {
      var i := RowFor(attempts, runId, source);
      if i == |attempts| || attempts[i].finalized || attempts[i].attempted {
        return None;
      }
      var row := attempts[i];
      var retries := CountStarted(attempts, source, row.windowStart, row.windowEnd);
      var cursorBefore := CursorOf(cursors, source);
      attempts := attempts[i := row.(attempted := true, status := Attempting, errorClass := "", attemptNumber := retries + 1,
                                     cursorBefore := cursorBefore, cursorAfter := None, cursorAdvanced := false)];
      id := Some(row.id);
    }

    method Checkpoint(id: string, ev: Record)
      modifies this`attempts
      ensures Value() == AfterCheckpoint(old(Value()), id, ev)
    {
      var i := RowOf(attempts, id);
      if i < |attempts| && !attempts[i].finalized {
        attempts := attempts[i := attempts[i].(payload := Checkpointed(ev.pages, ev.rawCount, ev.validResponse))];
      }
    }

    method LinkObservation(id: string, postId: string)
      modifies this`links
      ensures Value() == AfterLink(old(Value()), id, postId)
    {
      var i := RowOf(attempts, id);
      if i < |attempts| && !attempts[i].finalized {
        links := links + {(id, postId)};
      }
    }

    /** `evaluated` and `advance` are what the core answers; false stands for the raised error. */
    method Finish(id: string, ev: Record, retained: int, error: string, evaluated: Reply<Status>, advance: Reply<Time>)
      returns (ok: bool)
      modifies this`attempts, this`cursors
      ensures Value() == AfterFinish(old(Value()), id, ev, retained, error, evaluated, advance)
      ensures !ok ==> Value() == old(Value())
    {
      var i := RowOf(attempts, id);
      if i == |attempts| || !attempts[i].attempted {
        return false;
      }
      if attempts[i].finalized {
        return true;
      }
      var row := attempts[i];
      var status, err, advanced, gap := AdvanceCursor(i, error, Verdict(evaluated), advance);
      var (proof, detail) := ProofInputs(ev, error != "");
      var kind := VerdictKind(status, ev, detail, err);
      var cursorAfter := if row.source in cursors then Some(cursors[row.source].through) else row.cursorBefore;
      if cursorAfter == row.cursorBefore {
        advanced := false;
      }
      attempts := attempts[i := row.(
        status := status, errorClass := Bounded(err), retained := Max(0, retained), finalized := true,
        cursorAfter := cursorAfter, cursorAdvanced := advanced,
        payload := Final(proof, detail, ev.observations, kind, gap))];
      ok := true;
    }

    /** Moves the source's cursor when the verdict is complete, the window extends it without a gap, and the core agrees. */
    method AdvanceCursor(i: nat, error: string, verdict: Reply<Status>, advance: Reply<Time>)
      returns (status: Status, err: string, advanced: bool, gap: bool)
      requires i < |attempts|
      modifies this`cursors
      ensures (status, err, advanced) == Settle(old(Value()), i, error, verdict, advance)
      ensures gap == (verdict == Answer(Complete) && !Contiguous(old(Value()), attempts[i]))
      ensures cursors == if advanced
                         then old(cursors)[attempts[i].source := Cursor(attempts[i].windowEnd, attempts[i].id, i + 1)]
                         else old(cursors)
    {
      status, err, advanced, gap := Unproven, CORE_UNAVAILABLE, false, false;
      if verdict.Answer? {
        status, err := verdict.value, error;
      }
      var row := attempts[i];
      if status == Complete {
        var eligible := row.source !in cursors || (row.windowEnd > cursors[row.source].through && i + 1 > cursors[row.source].sequence);
        var contiguous := row.source !in cursors || row.windowStart <= cursors[row.source].through;
        if eligible && contiguous {
          if advance != Answer(row.windowEnd) {
            status, err := Unproven, CORE_UNAVAILABLE;
          } else {
            cursors := cursors[row.source := Cursor(row.windowEnd, row.id, i + 1)];
            advanced := true;
          }
        } else if !contiguous {
          gap := true;
        }
      }
    }

    method CloseRun(runId: string, reason: string)
      modifies this`attempts
      ensures Value() == AfterClose(old(Value()), runId, reason)
    {
      ghost var before := attempts;
      for i := 0 to |attempts|
        invariant |attempts| == |before|
        invariant forall k :: 0 <= k < i ==> attempts[k] == ClosedRow(before[k], cursors, runId, reason)
        invariant forall k :: i <= k < |before| ==> attempts[k] == before[k]
      {
        var row := attempts[i];
        if row.runId == runId && !row.finalized {
          var cursorAfter := row.cursorBefore;
          if !row.attempted {
            cursorAfter := CursorOf(cursors, row.source);
          }
          attempts := attempts[i := row.(
            status := Unproven, finalized := true, cursorAdvanced := false,
            errorClass := if row.attempted then reason else NOT_ATTEMPTED, cursorAfter := cursorAfter,
            payload := Closed(row.payload, if row.attempted then Interrupted else NotAttempted))];
        }
      }
    }

    /** The counts of a report: rows of the run, started ones, complete ones, and overall health. */
    method Report(runId: string) returns (configured: nat, attempted: nat, complete: nat, healthy: bool)
      ensures configured == CountRows(attempts, runId, false, false)
      ensures attempted == CountRows(attempts, runId, true, false)
      ensures complete == CountRows(attempts, runId, false, true)
      ensures healthy <==> (exists i :: 0 <= i < |attempts| && attempts[i].runId == runId)
                           && forall i :: 0 <= i < |attempts| && attempts[i].runId == runId
                                          ==> attempts[i].status == Complete && attempts[i].finalized
    {
      configured, attempted, complete := 0, 0, 0;
      var all := true;
      for i := 0 to |attempts|
        invariant configured == CountRows(attempts[..i], runId, false, false)
        invariant attempted == CountRows(attempts[..i], runId, true, false)
        invariant complete == CountRows(attempts[..i], runId, false, true)
        invariant configured > 0 <==> exists k :: 0 <= k < i && attempts[k].runId == runId
        invariant all <==> forall k :: 0 <= k < i && attempts[k].runId == runId ==> attempts[k].status == Complete && attempts[k].finalized
      {
        assert attempts[..i + 1][..i] == attempts[..i];
        if attempts[i].runId == runId {
          configured := configured + 1;
          if attempts[i].attempted { attempted := attempted + 1; }
          if attempts[i].status == Complete { complete := complete + 1; }
          if !(attempts[i].status == Complete && attempts[i].finalized) { all := false; }
        }
      }
      assert attempts[..|attempts|] == attempts;
      healthy := configured > 0 && all;
    }
  }

  /** The rows of a run, or only its started or its complete ones. */
  function CountRows(rows: seq<Attempt>, runId: string, started: bool, complete: bool): nat {
    if rows == [] then 0
    else
      var last := rows[|rows| - 1];
      CountRows(rows[..|rows| - 1], runId, started, complete)
      + (if last.runId == runId && (started ==> last.attempted) && (complete ==> last.status == Complete) then 1 else 0)
  }

  method CountStarted(attempts: seq<Attempt>, source: string, start: Time, end: Time) returns (n: nat)
    ensures n == StartedCount(attempts, source, start, end)
  {
    n := 0;
    for i := 0 to |attempts|
      invariant n == StartedCount(attempts[..i], source, start, end)
    {
      assert attempts[..i + 1][..i] == attempts[..i];
      if attempts[i].attempted && SameWindow(attempts[i], source, start, end) {
        n := n + 1;
      }
    }
    assert attempts[..|attempts|] == attempts;
  }
}
