/**
 Whole-run theorems about the completeness tables: gap-free cursors, attempt lifecycle, attempt
 numbers, and, with the shipped core's verdict rule, that everything below a cursor was observed.
 */
module CursorProof {
  import opened Common
  import opened Evidence
  import opened TraversalProof
  import opened CompletenessEngine

  // ---------------------------------------------------------------- the invariant

  ghost predicate UniqueRows(a: seq<Attempt>) {
    forall i, j :: 0 <= i < j < |a| ==> a[i].id != a[j].id && !(a[i].runId == a[j].runId && a[i].source == a[j].source)
  }

  predicate RowSound(row: Attempt) {
    && row.windowStart < row.windowEnd
    && (!row.attempted ==> row.attemptNumber == 0 && row.cursorBefore.None? && !row.cursorAdvanced)
    && (!row.finalized ==> row.status == if row.attempted then Attempting else Unproven)
    && (row.cursorAdvanced ==> row.attempted && row.finalized && row.status == Complete
                               && row.cursorAfter == Some(row.windowEnd))
  }

  /** The row's start-time cursor is no later than the source's cursor now. */
  predicate BeforeIsPast(row: Attempt, cursors: map<string, Cursor>) {
    row.cursorBefore.Some? ==> row.source in cursors && row.cursorBefore.value <= cursors[row.source].through
  }

  /** An earlier advancing row of the same source that the row's window continues without a gap. */
  ghost predicate Continues(a: seq<Attempt>, i: nat, j: nat)
    requires j < |a|
  {
    i < j && a[i].source == a[j].source && a[i].cursorAdvanced
    && a[j].windowStart <= a[i].windowEnd < a[j].windowEnd
  }

  ghost predicate FirstAdvance(a: seq<Attempt>, j: nat)
    requires j < |a|
  {
    a[j].cursorAdvanced && forall i :: 0 <= i < j && a[i].source == a[j].source ==> !a[i].cursorAdvanced
  }

  ghost predicate Chained(a: seq<Attempt>) {
    forall j :: 0 <= j < |a| && a[j].cursorAdvanced ==> FirstAdvance(a, j) || exists i :: 0 <= i < j && Continues(a, i, j)
  }

  /** Each cursor stands at the window end of its source's last advancing row. */
  ghost predicate CursorAtLast(a: seq<Attempt>, cursors: map<string, Cursor>) {
    && (forall s :: s in cursors ==> Stands(a, s, cursors[s]))
    && (forall j :: 0 <= j < |a| && a[j].cursorAdvanced ==> a[j].source in cursors && j + 1 <= cursors[a[j].source].sequence)
  }

  predicate Stands(a: seq<Attempt>, source: string, c: Cursor) {
    && 1 <= c.sequence <= |a|
    && a[c.sequence - 1].source == source && a[c.sequence - 1].cursorAdvanced
    && a[c.sequence - 1].id == c.attemptId && a[c.sequence - 1].windowEnd == c.through
  }

  ghost predicate Invariant(t: Tables) {
    && UniqueRows(t.attempts)
    && (forall i :: 0 <= i < |t.attempts| ==> RowSound(t.attempts[i]) && BeforeIsPast(t.attempts[i], t.cursors))
    && Chained(t.attempts)
    && CursorAtLast(t.attempts, t.cursors)
  }

  // ---------------------------------------------------------------- preservation

  /** `b` has the rows of `a`, with the same advances, and further rows that have not advanced. */
  ghost predicate SameAdvances(a: seq<Attempt>, b: seq<Attempt>) {
    && |a| <= |b|
    && (forall j :: 0 <= j < |a| ==> SameRow(a[j], b[j]) && a[j].cursorAdvanced == b[j].cursorAdvanced)
    && (forall j :: |a| <= j < |b| ==> !b[j].cursorAdvanced)
  }

  lemma ChainTransfers(a: seq<Attempt>, b: seq<Attempt>, cursors: map<string, Cursor>)
    requires SameAdvances(a, b) && Chained(a) && CursorAtLast(a, cursors)
    ensures Chained(b) && CursorAtLast(b, cursors)
  {
    forall j | 0 <= j < |b| && b[j].cursorAdvanced ensures FirstAdvance(b, j) || exists k :: 0 <= k < j && Continues(b, k, j) {
      if !FirstAdvance(a, j) {
        var k :| 0 <= k < j && Continues(a, k, j);
        assert SameRow(a[k], b[k]) && SameRow(a[j], b[j]);
        assert Continues(b, k, j);
      }
    }
    forall s | s in cursors
      ensures b[cursors[s].sequence - 1].source == s && b[cursors[s].sequence - 1].cursorAdvanced
      ensures b[cursors[s].sequence - 1].id == cursors[s].attemptId && b[cursors[s].sequence - 1].windowEnd == cursors[s].through
    {
      assert SameRow(a[cursors[s].sequence - 1], b[cursors[s].sequence - 1]);
    }
  }

  /** Replacing a row that has not advanced by one that has not advanced keeps the invariant. */
  lemma QuietUpdate(t: Tables, i: nat, row: Attempt)
    requires Invariant(t) && i < |t.attempts| && !t.attempts[i].cursorAdvanced && !row.cursorAdvanced
    requires SameRow(t.attempts[i], row) && RowSound(row) && BeforeIsPast(row, t.cursors)
    ensures Invariant(t.(attempts := t.attempts[i := row]))
  {
    ChainTransfers(t.attempts, t.attempts[i := row], t.cursors);
  }

  lemma InsertKeeps(t: Tables, row: Attempt)
    requires Invariant(t) && RowSound(row) && !row.cursorAdvanced && row.cursorBefore.None?
    ensures Invariant(t.(attempts := Inserted(t.attempts, row)))
  {
    var a := t.attempts;
    if Inserted(a, row) != a {
      ChainTransfers(a, a + [row], t.cursors);
      UniqueInsert(a, row);
    } else {
      assert t.(attempts := a) == t;
    }
  }

  lemma UniqueInsert(a: seq<Attempt>, row: Attempt)
    requires UniqueRows(a) && RowOf(a, row.id) == |a| && RowFor(a, row.runId, row.source) == |a|
    ensures UniqueRows(a + [row])
  {
  }

  lemma {:induction false} PlanKeeps(t: Tables, runId: string, ids: seq<string>, sources: seq<PlannedSource>, start: Time, end: Time)
    requires Invariant(t) && start < end && |ids| == |sources|
    ensures Invariant(t.(attempts := PlanRows(t.attempts, runId, ids, sources, start, end)))
  {
    if sources != [] {
      var n := |sources| - 1;
      PlanKeeps(t, runId, ids[..n], sources[..n], start, end);
      if sources[n].enabled {
        var before := t.(attempts := PlanRows(t.attempts, runId, ids[..n], sources[..n], start, end));
        InsertKeeps(before, NewRow(ids[n], runId, HandleOf(sources[n], n), n, start, end));
      }
    } else {
      assert t.(attempts := t.attempts) == t;
    }
  }

  /** The one step that moves a cursor: the chain is extended at its end. */
  lemma AdvanceKeeps(t: Tables, i: nat, row: Attempt)
    requires Invariant(t) && i < |t.attempts| && !t.attempts[i].cursorAdvanced && MayAdvance(t, i)
    requires SameRow(t.attempts[i], row) && row.cursorBefore == t.attempts[i].cursorBefore
    requires RowSound(row) && row.cursorAdvanced
    ensures Invariant(Tables(t.attempts[i := row], t.cursors[row.source := Cursor(row.windowEnd, row.id, i + 1)], t.links))
  {
    var cursors := t.cursors[row.source := Cursor(row.windowEnd, row.id, i + 1)];
    var rows := t.attempts[i := row];
    forall j | 0 <= j < |rows| ensures BeforeIsPast(rows[j], cursors) {
      assert BeforeIsPast(t.attempts[j], t.cursors);
    }
    AdvanceExtendsChain(t, i, row);
    AdvanceSetsCursor(t, i, row);
  }

  lemma AdvanceExtendsChain(t: Tables, i: nat, row: Attempt)
    requires Chained(t.attempts) && CursorAtLast(t.attempts, t.cursors)
    requires i < |t.attempts| && !t.attempts[i].cursorAdvanced && MayAdvance(t, i)
    requires SameRow(t.attempts[i], row) && row.cursorAdvanced
    ensures Chained(t.attempts[i := row])
  {
    ChainExtended(t.attempts, t.cursors, i, row);
  }

  lemma ChainExtended(a: seq<Attempt>, cursors: map<string, Cursor>, i: nat, row: Attempt)
    requires Chained(a) && CursorAtLast(a, cursors) && i < |a| && !a[i].cursorAdvanced && SameRow(a[i], row) && row.cursorAdvanced
    requires row.source in cursors ==>
      row.windowStart <= cursors[row.source].through < row.windowEnd && i + 1 > cursors[row.source].sequence
    ensures Chained(a[i := row])
  {
    var b := a[i := row];
    NewLinkHolds(a, cursors, i, row);
    forall j | 0 <= j < |b| && j != i && b[j].cursorAdvanced
      ensures FirstAdvance(b, j) || exists k :: 0 <= k < j && Continues(b, k, j)
    {
      assert b[j] == a[j] && (a[j].source == row.source ==> j < i);
      EarlierStaysChained(a, i, b, j);
    }
  }

  lemma NewLinkHolds(a: seq<Attempt>, cursors: map<string, Cursor>, i: nat, row: Attempt)
    requires CursorAtLast(a, cursors) && i < |a| && !a[i].cursorAdvanced && SameRow(a[i], row) && row.cursorAdvanced
    requires row.source in cursors ==>
      row.windowStart <= cursors[row.source].through < row.windowEnd && i + 1 > cursors[row.source].sequence
    ensures var b := a[i := row]; FirstAdvance(b, i) || exists k :: 0 <= k < i && Continues(b, k, i)
  {
    var b := a[i := row];
    if row.source in cursors {
      assert Stands(a, row.source, cursors[row.source]);
      assert Continues(b, cursors[row.source].sequence - 1, i);
    } else {
      assert FirstAdvance(b, i);
    }
  }

  lemma EarlierStaysChained(a: seq<Attempt>, i: nat, b: seq<Attempt>, j: nat)
    requires Chained(a) && i < |a| && j < |a| && j != i && a[j].cursorAdvanced && !a[i].cursorAdvanced
    requires |b| == |a| && SameRow(a[i], b[i]) && forall k :: 0 <= k < |a| && k != i ==> b[k] == a[k]
    requires a[j].source == b[i].source ==> j < i
    ensures FirstAdvance(b, j) || exists k :: 0 <= k < j && Continues(b, k, j)
  {
    if !FirstAdvance(a, j) {
      var k :| 0 <= k < j && Continues(a, k, j);
      assert Continues(b, k, j);
    }
  }

  lemma AdvanceSetsCursor(t: Tables, i: nat, row: Attempt)
    requires CursorAtLast(t.attempts, t.cursors)
    requires i < |t.attempts| && !t.attempts[i].cursorAdvanced && MayAdvance(t, i)
    requires SameRow(t.attempts[i], row) && row.cursorAdvanced
    ensures CursorAtLast(t.attempts[i := row], t.cursors[row.source := Cursor(row.windowEnd, row.id, i + 1)])
  {
    CursorReplaced(t.attempts, t.cursors, i, row);
  }

  lemma CursorReplaced(a: seq<Attempt>, cursors: map<string, Cursor>, i: nat, row: Attempt)
    requires CursorAtLast(a, cursors) && i < |a| && !a[i].cursorAdvanced && SameRow(a[i], row) && row.cursorAdvanced
    requires row.source in cursors ==> i + 1 > cursors[row.source].sequence
    ensures CursorAtLast(a[i := row], cursors[row.source := Cursor(row.windowEnd, row.id, i + 1)])
  {
    var b, next := a[i := row], cursors[row.source := Cursor(row.windowEnd, row.id, i + 1)];
    forall s | s in next ensures Stands(b, s, next[s]) {
      assert s != row.source ==> s in cursors && Stands(a, s, cursors[s]);
    }
    forall j | 0 <= j < |b| && b[j].cursorAdvanced ensures b[j].source in next && j + 1 <= next[b[j].source].sequence {
      assert j != i ==> b[j] == a[j] && a[j].source in cursors && j + 1 <= cursors[a[j].source].sequence;
    }
  }

  lemma FinishKeeps(t: Tables, id: string, ev: Record, retained: int, error: string, evaluated: Reply<Status>, advance: Reply<Time>)
    requires Invariant(t)
    ensures Invariant(AfterFinish(t, id, ev, retained, error, evaluated, advance))
  {
    var i := RowOf(t.attempts, id);
    if i < |t.attempts| && t.attempts[i].attempted && !t.attempts[i].finalized {
      assert RowSound(t.attempts[i]) && BeforeIsPast(t.attempts[i], t.cursors);
      var next := AfterFinish(t, id, ev, retained, error, evaluated, advance);
      var moved := Settle(t, i, error, Verdict(evaluated), advance).2;
      if moved {
        assert next.attempts[i].cursorAdvanced;
        AdvanceKeeps(t, i, next.attempts[i]);
        assert next == Tables(t.attempts[i := next.attempts[i]], next.cursors, t.links);
      } else {
        QuietUpdate(t, i, next.attempts[i]);
        assert next == t.(attempts := t.attempts[i := next.attempts[i]]);
      }
    }
  }

  lemma CloseKeeps(t: Tables, runId: string, reason: string)
    requires Invariant(t)
    ensures Invariant(AfterClose(t, runId, reason))
  {
    var a, b := t.attempts, AfterClose(t, runId, reason).attempts;
    forall j | 0 <= j < |a|
      ensures SameRow(a[j], b[j]) && a[j].cursorAdvanced == b[j].cursorAdvanced && RowSound(b[j]) && BeforeIsPast(b[j], t.cursors)
    {
      assert RowSound(a[j]) && BeforeIsPast(a[j], t.cursors);
    }
    ChainTransfers(a, b, t.cursors);
    UniqueSame(a, b);
  }

  lemma UniqueSame(a: seq<Attempt>, b: seq<Attempt>)
    requires |a| == |b| && UniqueRows(a) && forall j :: 0 <= j < |a| ==> SameRow(a[j], b[j])
    ensures UniqueRows(b)
  {
  }

  lemma StepKeepsInvariant(t: Tables, call: Call)
    requires Invariant(t)
    ensures Invariant(Step(t, call))
  {
    match call
    case Plan(runId, ids, sources, start, end) =>
      if start < end && |ids| == |sources| { PlanKeeps(t, runId, ids, sources, start, end); }
    case Start(runId, source) =>
      var i := RowFor(t.attempts, runId, source);
      if i < |t.attempts| && !t.attempts[i].finalized && !t.attempts[i].attempted {
        assert RowSound(t.attempts[i]);
        QuietUpdate(t, i, AfterStart(t, runId, source).attempts[i]);
      }
    case Checkpoint(id, ev) =>
      var i := RowOf(t.attempts, id);
      if i < |t.attempts| && !t.attempts[i].finalized {
        assert RowSound(t.attempts[i]) && BeforeIsPast(t.attempts[i], t.cursors);
        QuietUpdate(t, i, AfterCheckpoint(t, id, ev).attempts[i]);
      }
    case Link(id, postId) =>
    case Finish(id, ev, retained, error, evaluated, advance) => FinishKeeps(t, id, ev, retained, error, evaluated, advance);
    case CloseRun(runId, reason) => CloseKeeps(t, runId, reason);
  }

  lemma {:induction false} RunInvariant(calls: seq<Call>)
    ensures Invariant(Run(calls))
  {
    if calls != [] {
      RunInvariant(calls[..|calls| - 1]);
      StepKeepsInvariant(Run(calls[..|calls| - 1]), calls[|calls| - 1]);
    }
  }

  // ---------------------------------------------------------------- gap-free coverage

  lemma {:induction false} ChainCovers(a: seq<Attempt>, first: nat, j: nat, at: Time) returns (k: nat)
    requires Chained(a) && first <= j < |a| && a[j].cursorAdvanced && a[first].source == a[j].source
    requires FirstAdvance(a, first) && a[first].windowStart <= at < a[j].windowEnd
    ensures k < |a| && a[k].source == a[j].source && a[k].cursorAdvanced && a[k].windowStart <= at < a[k].windowEnd
    decreases j
  {
    if a[j].windowStart <= at {
      k := j;
    } else {
      assert first < j;
      var i :| 0 <= i < j && Continues(a, i, j);
      assert first <= i;
      k := ChainCovers(a, first, i, at);
    }
  }

  /**
   In every run, for any answers of the core: each instant from the start of a source's first advancing
   window up to its cursor lies in the window of a finalized complete attempt of that source.
   */
  lemma GapFree(calls: seq<Call>, source: string, first: nat, at: Time) returns (k: nat)
    requires source in Run(calls).cursors
    requires var a := Run(calls).attempts; first < |a| && a[first].source == source && FirstAdvance(a, first)
                                           && a[first].windowStart <= at < Run(calls).cursors[source].through
    ensures var a := Run(calls).attempts;
            && k < |a| && a[k].source == source && a[k].finalized && a[k].status == Complete
            && a[k].windowStart <= at < a[k].windowEnd
  {
    RunInvariant(calls);
    var t := Run(calls);
    k := ChainCovers(t.attempts, first, t.cursors[source].sequence - 1, at);
    assert RowSound(t.attempts[k]);
  }

  /** A source has a cursor exactly when some attempt of it advanced, and then a first one exists. */
  lemma {:induction false} FirstAdvanceExists(a: seq<Attempt>, j: nat) returns (first: nat)
    requires j < |a| && a[j].cursorAdvanced
    ensures first <= j && a[first].source == a[j].source && FirstAdvance(a, first)
  {
    if FirstAdvance(a, j) {
      first := j;
    } else {
      var i :| 0 <= i < j && a[i].source == a[j].source && a[i].cursorAdvanced;
      first := FirstAdvanceExists(a, i);
    }
  }

  // ---------------------------------------------------------------- lifecycle

  /** What no call changes in a row. */
  predicate SameRow(x: Attempt, y: Attempt) {
    x.id == y.id && x.runId == y.runId && x.source == y.source && x.windowStart == y.windowStart && x.windowEnd == y.windowEnd
    && x.sourceOrder == y.sourceOrder
  }

  /** `later` extends `earlier`: rows persist, finalized rows and their observations are frozen, started rows stay
      started under their number, cursors only move forward. */
  ghost predicate Extends(earlier: Tables, later: Tables) {
    && |earlier.attempts| <= |later.attempts|
    && (forall i :: 0 <= i < |earlier.attempts| ==>
          var x, y := earlier.attempts[i], later.attempts[i];
          && SameRow(x, y)
          && (x.finalized ==> x == y)
          && (x.attempted ==> y.attempted && y.attemptNumber == x.attemptNumber && y.cursorBefore == x.cursorBefore))
    && (forall i, post :: 0 <= i < |earlier.attempts| && earlier.attempts[i].finalized ==>
          ((earlier.attempts[i].id, post) in earlier.links <==> (earlier.attempts[i].id, post) in later.links))
    && (forall s :: s in earlier.cursors ==>
          s in later.cursors && (later.cursors[s] == earlier.cursors[s]
                                 || (later.cursors[s].through > earlier.cursors[s].through
                                     && later.cursors[s].sequence > earlier.cursors[s].sequence)))
  }

  lemma {:induction false} PlanAppends(attempts: seq<Attempt>, runId: string, ids: seq<string>, sources: seq<PlannedSource>, start: Time, end: Time)
    requires |ids| == |sources|
    ensures attempts <= PlanRows(attempts, runId, ids, sources, start, end)
    ensures forall i :: |attempts| <= i < |PlanRows(attempts, runId, ids, sources, start, end)|
                        ==> !PlanRows(attempts, runId, ids, sources, start, end)[i].attempted
                            && !PlanRows(attempts, runId, ids, sources, start, end)[i].cursorAdvanced
  {
    if sources != [] {
      PlanAppends(attempts, runId, ids[..|ids| - 1], sources[..|sources| - 1], start, end);
    }
  }

  lemma StepExtends(t: Tables, call: Call)
    requires Invariant(t)
    ensures Extends(t, Step(t, call))
  {
    match call
    case Plan(runId, ids, sources, start, end) =>
      if |ids| == |sources| { PlanAppends(t.attempts, runId, ids, sources, start, end); }
    case Start(runId, source) =>
    case Checkpoint(id, ev) =>
    case Link(id, postId) => LinkExtends(t, id, postId);
    case Finish(id, ev, retained, error, evaluated, advance) => FinishExtends(t, id, ev, retained, error, evaluated, advance);
    case CloseRun(runId, reason) =>
  }

  lemma LinkExtends(t: Tables, id: string, postId: string)
    requires Invariant(t)
    ensures Extends(t, AfterLink(t, id, postId))
  {
    var i := RowOf(t.attempts, id);
    forall j | 0 <= j < |t.attempts| && t.attempts[j].finalized && i < |t.attempts| && !t.attempts[i].finalized ensures t.attempts[j].id != id {
      assert t.attempts[Min(i, j)].id != t.attempts[Max(i, j)].id;
    }
  }

  lemma FinishExtends(t: Tables, id: string, ev: Record, retained: int, error: string, evaluated: Reply<Status>, advance: Reply<Time>)
    requires Invariant(t)
    ensures Extends(t, AfterFinish(t, id, ev, retained, error, evaluated, advance))
  {
    var i := RowOf(t.attempts, id);
    if i < |t.attempts| && t.attempts[i].attempted && !t.attempts[i].finalized {
      assert RowSound(t.attempts[i]);
    }
  }

  lemma ExtendsTransitive(x: Tables, y: Tables, z: Tables)
    requires Extends(x, y) && Extends(y, z)
    ensures Extends(x, z)
  {
    forall i, post | 0 <= i < |x.attempts| && x.attempts[i].finalized
      ensures (x.attempts[i].id, post) in x.links <==> (x.attempts[i].id, post) in z.links
    {
      assert y.attempts[i] == x.attempts[i];
    }
  }

  /** Over every run and every later point of it. */
  lemma {:induction false} RunExtends(calls: seq<Call>, n: nat)
    requires n <= |calls|
    ensures Extends(Run(calls[..n]), Run(calls))
    decreases |calls|
  {
    if n == |calls| {
      assert calls[..n] == calls;
    } else {
      var init := calls[..|calls| - 1];
      RunExtends(init, n);
      assert init[..n] == calls[..n];
      RunInvariant(init);
      StepExtends(Run(init), calls[|calls| - 1]);
      ExtendsTransitive(Run(calls[..n]), Run(init), Run(calls));
    }
  }

  /** `close_run` finalizes every attempt of its run, and moves no cursor and no other row. */
  lemma CloseFinalizes(t: Tables, runId: string, reason: string)
    ensures var next := AfterClose(t, runId, reason);
            && next.cursors == t.cursors && next.links == t.links && |next.attempts| == |t.attempts|
            && (forall i :: 0 <= i < |t.attempts| && t.attempts[i].runId == runId ==> next.attempts[i].finalized)
            && (forall i :: 0 <= i < |t.attempts| && t.attempts[i].runId != runId ==> next.attempts[i] == t.attempts[i])
            && (forall i :: 0 <= i < |t.attempts| && t.attempts[i].runId == runId && !t.attempts[i].finalized
                  ==> next.attempts[i].status == Unproven && !next.attempts[i].cursorAdvanced)
  {
  }

  /** The cursor of a row's source is different after the call. */
  predicate MovedFor(t: Tables, next: Tables, i: nat)
    requires i < |next.attempts|
  {
    var s := next.attempts[i].source;
    s in next.cursors && (s !in t.cursors || t.cursors[s] != next.cursors[s]) && next.cursors[s].attemptId == next.attempts[i].id
  }

  /** The stored flag is set by a call exactly for the attempt whose finish moved the cursor in that call. */
  lemma AdvancedIffMoved(t: Tables, call: Call, i: nat)
    requires Invariant(t) && i < |Step(t, call).attempts|
    ensures (Step(t, call).attempts[i].cursorAdvanced && !(i < |t.attempts| && t.attempts[i].cursorAdvanced))
            <==> MovedFor(t, Step(t, call), i)
  {
    if call.Finish? {
      FinishMoves(t, call.id, call.ev, call.retained, call.error, call.evaluated, call.advance, i);
    } else {
      OnlyFinishAdvances(t, call);
    }
  }

  lemma OnlyFinishAdvances(t: Tables, call: Call)
    requires !call.Finish?
    ensures Step(t, call).cursors == t.cursors
    ensures forall i :: 0 <= i < |Step(t, call).attempts| && Step(t, call).attempts[i].cursorAdvanced
                        ==> i < |t.attempts| && t.attempts[i].cursorAdvanced
  {
    if call.Plan? && |call.ids| == |call.sources| {
      PlanAppends(t.attempts, call.runId, call.ids, call.sources, call.start, call.end);
    }
  }

  lemma FinishMoves(t: Tables, id: string, ev: Record, retained: int, error: string, evaluated: Reply<Status>, advance: Reply<Time>, i: nat)
    requires Invariant(t) && i < |t.attempts|
    ensures var next := AfterFinish(t, id, ev, retained, error, evaluated, advance);
            (next.attempts[i].cursorAdvanced && !t.attempts[i].cursorAdvanced) <==> MovedFor(t, next, i)
  {
    var r := RowOf(t.attempts, id);
    if r < |t.attempts| && t.attempts[r].attempted && !t.attempts[r].finalized {
      assert RowSound(t.attempts[r]) && BeforeIsPast(t.attempts[r], t.cursors);
      if i != r {
        assert t.attempts[Min(i, r)].id != t.attempts[Max(i, r)].id;
      }
    }
  }

  // ---------------------------------------------------------------- attempt numbers

  /** The rows started by a run, in order. */
  function StartLog(calls: seq<Call>): seq<nat> {
    if calls == [] then []
    else
      var init, last := calls[..|calls| - 1], calls[|calls| - 1];
      var t := Run(init);
      StartLog(init) + (if last.Start? && AfterStart(t, last.runId, last.source) != t
                        then [RowFor(t.attempts, last.runId, last.source)] else [])
  }

  /** How many rows of the log share the key of a row. */
  function Earlier(a: seq<Attempt>, log: seq<nat>, source: string, start: Time, end: Time): nat
    requires InRange(a, log)
  {
    if log == [] then 0
    else Earlier(a, log[..|log| - 1], source, start, end)
         + (if SameWindow(a[log[|log| - 1]], source, start, end) then 1 else 0)
  }

  predicate InRange(a: seq<Attempt>, log: seq<nat>) {
    forall k :: 0 <= k < |log| ==> log[k] < |a|
  }

  /** The number of the k-th started row is one more than the starts of its key before it. */
  predicate NumberedByLog(a: seq<Attempt>, log: seq<nat>, k: nat)
    requires InRange(a, log) && k < |log|
  {
    var row := a[log[k]];
    row.attemptNumber == Earlier(a, log[..k], row.source, row.windowStart, row.windowEnd) + 1
  }

  ghost predicate LogSound(a: seq<Attempt>, log: seq<nat>) {
    && InRange(a, log)
    && (forall k :: 0 <= k < |log| ==> a[log[k]].attempted && NumberedByLog(a, log, k))
    && (forall source, start, end :: StartedCount(a, source, start, end) == Earlier(a, log, source, start, end))
  }

  lemma {:induction false} EarlierSameKeys(a: seq<Attempt>, b: seq<Attempt>, log: seq<nat>, source: string, start: Time, end: Time)
    requires forall k :: 0 <= k < |log| ==> log[k] < |a| && log[k] < |b| && SameRow(a[log[k]], b[log[k]])
    ensures Earlier(a, log, source, start, end) == Earlier(b, log, source, start, end)
  {
    if log != [] { EarlierSameKeys(a, b, log[..|log| - 1], source, start, end); }
  }

  /** The count depends on nothing but keys and started flags. */
  lemma {:induction false} CountSameFlags(a: seq<Attempt>, b: seq<Attempt>, source: string, start: Time, end: Time)
    requires |a| <= |b|
    requires forall i :: 0 <= i < |a| ==> SameRow(a[i], b[i]) && a[i].attempted == b[i].attempted
    requires forall i :: |a| <= i < |b| ==> !b[i].attempted
    ensures StartedCount(a, source, start, end) == StartedCount(b, source, start, end)
  {
    if b != [] {
      if |a| == |b| {
        CountSameFlags(a[..|a| - 1], b[..|b| - 1], source, start, end);
      } else {
        CountSameFlags(a, b[..|b| - 1], source, start, end);
      }
    }
  }

  lemma {:induction false} CountOneMore(a: seq<Attempt>, i: nat, row: Attempt, source: string, start: Time, end: Time)
    requires i < |a| && SameRow(a[i], row) && !a[i].attempted && row.attempted
    ensures StartedCount(a[i := row], source, start, end)
            == StartedCount(a, source, start, end) + (if SameWindow(row, source, start, end) then 1 else 0)
  {
    var b := a[i := row];
    if i == |a| - 1 {
      assert b[..|b| - 1] == a[..|a| - 1];
    } else {
      assert b[..|b| - 1] == a[..|a| - 1][i := row];
      CountOneMore(a[..|a| - 1], i, row, source, start, end);
    }
  }

  lemma LogUnchanged(a: seq<Attempt>, b: seq<Attempt>, log: seq<nat>)
    requires LogSound(a, log) && |a| <= |b|
    requires forall i :: 0 <= i < |a| ==> SameRow(a[i], b[i]) && a[i].attempted == b[i].attempted && a[i].attemptNumber == b[i].attemptNumber
    requires forall i :: |a| <= i < |b| ==> !b[i].attempted
    ensures LogSound(b, log)
  {
    forall k | 0 <= k < |log| ensures NumberedByLog(b, log, k) {
      assert NumberedByLog(a, log, k);
      EarlierSameKeys(a, b, log[..k], b[log[k]].source, b[log[k]].windowStart, b[log[k]].windowEnd);
    }
    forall source, start, end ensures StartedCount(b, source, start, end) == Earlier(b, log, source, start, end) {
      CountSameFlags(a, b, source, start, end);
      EarlierSameKeys(a, b, log, source, start, end);
    }
  }

  lemma LogStarted(a: seq<Attempt>, i: nat, row: Attempt, log: seq<nat>)
    requires LogSound(a, log) && i < |a| && SameRow(a[i], row) && !a[i].attempted && row.attempted
    requires row.attemptNumber == StartedCount(a, row.source, row.windowStart, row.windowEnd) + 1
    ensures LogSound(a[i := row], log + [i])
  {
    var b, longer := a[i := row], log + [i];
    forall k | 0 <= k < |longer|
      ensures longer[k] < |b| && b[longer[k]].attempted && NumberedByLog(b, longer, k)
    {
      StartedNumbers(a, i, row, log, k);
    }
    forall source, start, end ensures StartedCount(b, source, start, end) == Earlier(b, longer, source, start, end) {
      CountOneMore(a, i, row, source, start, end);
      EarlierSameKeys(a, b, log, source, start, end);
      assert longer[..|longer| - 1] == log;
    }
  }

  lemma StartedNumbers(a: seq<Attempt>, i: nat, row: Attempt, log: seq<nat>, k: nat)
    requires LogSound(a, log) && i < |a| && SameRow(a[i], row) && !a[i].attempted && row.attempted
    requires row.attemptNumber == StartedCount(a, row.source, row.windowStart, row.windowEnd) + 1
    requires k <= |log|
    ensures InRange(a[i := row], log + [i])
    ensures NumberedByLog(a[i := row], log + [i], k)
  {
    var b, longer := a[i := row], log + [i];
    assert longer[..k] == log[..k];
    EarlierSameKeys(a, b, log[..k], b[longer[k]].source, b[longer[k]].windowStart, b[longer[k]].windowEnd);
    if k == |log| {
      assert log[..k] == log;
    } else {
      assert NumberedByLog(a, log, k);
      assert longer[k] == log[k] && a[log[k]].attempted && b[log[k]] == a[log[k]];
    }
  }

  /** In every run the k-th started attempt of one source and window has number k. */
  lemma {:induction false} AttemptNumbersCountStarts(calls: seq<Call>)
    ensures LogSound(Run(calls).attempts, StartLog(calls))
  {
    if calls != [] {
      var init, last := calls[..|calls| - 1], calls[|calls| - 1];
      var t, next := Run(init), Run(calls);
      AttemptNumbersCountStarts(init);
      RunInvariant(init);
      StepExtends(t, last);
      if last.Start? && next != t {
        var i := RowFor(t.attempts, last.runId, last.source);
        LogStarted(t.attempts, i, next.attempts[i], StartLog(init));
      } else {
        NoStartNoChange(t, last);
        LogUnchanged(t.attempts, next.attempts, StartLog(init));
        assert StartLog(calls) == StartLog(init);
      }
    }
  }

  lemma NoStartNoChange(t: Tables, call: Call)
    requires call.Start? ==> Step(t, call) == t
    ensures var a, b := t.attempts, Step(t, call).attempts;
            && |a| <= |b|
            && (forall i :: 0 <= i < |a| ==> SameRow(a[i], b[i]) && a[i].attempted == b[i].attempted && a[i].attemptNumber == b[i].attemptNumber)
            && forall i :: |a| <= i < |b| ==> !b[i].attempted
  {
    if call.Plan? && |call.ids| == |call.sources| {
      PlanAppends(t.attempts, call.runId, call.ids, call.sources, call.start, call.end);
    }
  }

  // ---------------------------------------------------------------- with the shipped core

  /** The verdict rule of the shipped core. */
  function EvaluateCompleteness(proof: Proof): Status {
    if !proof.failed && proof.pages > 0 && proof.validResponse && proof.exhausted && !proof.resumed && !proof.lowerBoundary
    then Complete
    else if proof.rawCount > 0 then Partial
    else Unproven
  }

  /** The core either fails or answers by its rule. */
  predicate ShippedCore(call: Call) {
    call.Finish? ==> call.evaluated.Unavailable? || call.evaluated == Answer(EvaluateCompleteness(ProofInputs(call.ev, call.error != "").0))
  }

  /** A stored complete attempt carries a terminal, valid, unresumed proof. */
  predicate Evidenced(row: Attempt) {
    row.status == Complete ==>
      && row.finalized && row.payload.Final?
      && row.payload.detail.terminalProven && row.payload.proof.validResponse && row.payload.proof.pages > 0
      && !row.payload.proof.resumed && !row.payload.proof.failed
      && row.payload.detail.missing == {} && row.payload.detail.expected <= row.payload.observations
      && row.payload.kind in {ValidatedExhaustion, ValidatedLowerBoundary}
  }

  lemma StepKeepsEvidenced(t: Tables, call: Call)
    requires ShippedCore(call) && Invariant(t)
    requires forall i :: 0 <= i < |t.attempts| ==> Evidenced(t.attempts[i])
    ensures forall i :: 0 <= i < |Step(t, call).attempts| ==> Evidenced(Step(t, call).attempts[i])
  {
    match call
    case Plan(runId, ids, sources, start, end) =>
      if |ids| == |sources| && start < end {
        PlanAppends(t.attempts, runId, ids, sources, start, end);
        StepKeepsInvariant(t, call);
        var b := Step(t, call).attempts;
        forall i | |t.attempts| <= i < |b| ensures Evidenced(b[i]) {
          assert RowSound(b[i]);
          PlannedNotComplete(t.attempts, runId, ids, sources, start, end, i);
        }
      }
    case Start(runId, source) =>
    case Checkpoint(id, ev) =>
      assert forall i :: 0 <= i < |t.attempts| ==> RowSound(t.attempts[i]);
    case Link(id, postId) =>
    case Finish(id, ev, retained, error, evaluated, advance) =>
    case CloseRun(runId, reason) =>
  }

  lemma {:induction false} PlannedNotComplete(attempts: seq<Attempt>, runId: string, ids: seq<string>, sources: seq<PlannedSource>,
                                              start: Time, end: Time, i: nat)
    requires |ids| == |sources| && |attempts| <= i < |PlanRows(attempts, runId, ids, sources, start, end)|
    ensures PlanRows(attempts, runId, ids, sources, start, end)[i].status == Unproven
  {
    var before := PlanRows(attempts, runId, ids[..|ids| - 1], sources[..|sources| - 1], start, end);
    if i < |before| {
      PlannedNotComplete(attempts, runId, ids[..|ids| - 1], sources[..|sources| - 1], start, end, i);
    }
  }

  lemma {:induction false} CompleteIsEvidenced(calls: seq<Call>)
    requires forall n :: 0 <= n < |calls| ==> ShippedCore(calls[n])
    ensures forall i :: 0 <= i < |Run(calls).attempts| ==> Evidenced(Run(calls).attempts[i])
  {
    if calls != [] {
      CompleteIsEvidenced(calls[..|calls| - 1]);
      RunInvariant(calls[..|calls| - 1]);
      StepKeepsEvidenced(Run(calls[..|calls| - 1]), calls[|calls| - 1]);
    }
  }

  // ---------------------------------------------------------------- no silent miss

  /** The evidence comes from a traversal of the source's real timeline for the row's window. */
  ghost predicate Collected(timeline: seq<Entry>, row: Attempt, ev: Record) {
    row.source != "" && exists pages, slices, lastValid, nextCursor, resumed, crossed ::
      CollectedBy(timeline, row, ev, pages, slices, lastValid, nextCursor, resumed, crossed)
  }

  ghost predicate CollectedBy(timeline: seq<Entry>, row: Attempt, ev: Record, pages: seq<ProviderPage>, slices: seq<Slice>,
                              lastValid: bool, nextCursor: string, resumed: bool, crossed: bool) {
    && HonestTraversal(timeline, pages, slices)
    && ev == Close(Traverse(Fresh(row.source, Some(row.windowStart), Some(row.windowEnd)), pages), lastValid, nextCursor, resumed, crossed)
    && (lastValid && nextCursor == "" ==> Frontier(slices) == |timeline|)
    && (forall j :: 0 <= j < Min(Frontier(slices), |timeline|) && row.windowStart <= timeline[j].at < row.windowEnd
          ==> Accounted(row.source, pages, timeline[j].id))
  }

  /** A complete attempt observed every post its source published in its window. */
  ghost predicate WindowObserved(timeline: seq<Entry>, row: Attempt) {
    row.status == Complete ==>
      && row.payload.Final?
      && forall i :: 0 <= i < |timeline| && row.windowStart <= timeline[i].at < row.windowEnd ==> timeline[i].id in row.payload.observations
  }

  /** Every post of `published` dated in the row's window is in the snapshot. */
  ghost predicate Shows(snapshot: seq<Entry>, published: seq<Entry>, row: Attempt) {
    forall j :: 0 <= j < |published| && row.windowStart <= published[j].at < row.windowEnd ==> published[j] in snapshot
  }

  /**
   `published` is all a source ever publishes, `seen(n)` the timeline that the read finished by call `n` was served.
   Only what the core would call complete is asked to be an honest read, and one that is late enough: resumed, failed
   and partial reads are free.
   */
  ghost predicate HonestRun(calls: seq<Call>, published: string -> seq<Entry>, seen: nat -> seq<Entry>) {
    forall n :: 0 <= n < |calls| ==> ShippedCore(calls[n]) && HonestFinish(Run(calls[..n]), calls[n], published, seen(n))
  }

  predicate Settles(t: Tables, call: Call) {
    && call.Finish? && RowOf(t.attempts, call.id) < |t.attempts|
    && (var row := t.attempts[RowOf(t.attempts, call.id)]; row.attempted && !row.finalized)
    && EvaluateCompleteness(ProofInputs(call.ev, call.error != "").0) == Complete
  }

  ghost predicate HonestFinish(t: Tables, call: Call, published: string -> seq<Entry>, snapshot: seq<Entry>) {
    Settles(t, call) ==>
      var row := t.attempts[RowOf(t.attempts, call.id)];
      Collected(snapshot, row, call.ev) && Shows(snapshot, published(row.source), row)
  }

  /** A source that has since published only posts at or after the end of the window was read late enough. */
  lemma LateEnough(snapshot: seq<Entry>, newer: seq<Entry>, row: Attempt)
    requires forall k :: 0 <= k < |newer| ==> newer[k].at >= row.windowEnd
    ensures Shows(snapshot, newer + snapshot, row)
  {
    forall j | 0 <= j < |newer + snapshot| && row.windowStart <= (newer + snapshot)[j].at < row.windowEnd
      ensures (newer + snapshot)[j] in snapshot
    {
      if j < |newer| {
        assert false;
      } else {
        assert (newer + snapshot)[j] == snapshot[j - |newer|];
      }
    }
  }

  lemma FinishObserves(t: Tables, call: Call, published: string -> seq<Entry>, snapshot: seq<Entry>, i: nat)
    requires call.Finish? && ShippedCore(call) && HonestFinish(t, call, published, snapshot) && Invariant(t)
    requires i == RowOf(t.attempts, call.id) && i < |t.attempts| && t.attempts[i].attempted && !t.attempts[i].finalized
    ensures WindowObserved(published(t.attempts[i].source), Step(t, call).attempts[i])
  {
    var row := t.attempts[i];
    assert RowSound(row);
    if Step(t, call).attempts[i].status == Complete {
      assert Settles(t, call);
      CollectedWindowObserved(snapshot, row, call.ev, call.error != "");
      ShownIsObserved(snapshot, published(row.source), row, call.ev.observations);
    }
  }

  lemma ShownIsObserved(snapshot: seq<Entry>, published: seq<Entry>, row: Attempt, observed: set<string>)
    requires Shows(snapshot, published, row)
    requires forall j :: 0 <= j < |snapshot| && row.windowStart <= snapshot[j].at < row.windowEnd ==> snapshot[j].id in observed
    ensures forall j :: 0 <= j < |published| && row.windowStart <= published[j].at < row.windowEnd ==> published[j].id in observed
  {
  }

  lemma CollectedWindowObserved(timeline: seq<Entry>, row: Attempt, ev: Record, failed: bool)
    requires Collected(timeline, row, ev) && row.windowStart < row.windowEnd
    requires EvaluateCompleteness(ProofInputs(ev, failed).0) == Complete
    ensures forall j :: 0 <= j < |timeline| && row.windowStart <= timeline[j].at < row.windowEnd ==> timeline[j].id in ev.observations
  {
    var pages, slices, lastValid, nextCursor, resumed, crossed :|
      CollectedBy(timeline, row, ev, pages, slices, lastValid, nextCursor, resumed, crossed);
    CompleteIsTerminal(ev, failed);
    TraversalObserved(timeline, row, ev, pages, slices, lastValid, nextCursor, resumed, crossed, failed);
  }

  lemma TraversalObserved(timeline: seq<Entry>, row: Attempt, ev: Record, pages: seq<ProviderPage>, slices: seq<Slice>,
                          lastValid: bool, nextCursor: string, resumed: bool, crossed: bool, failed: bool)
    requires CollectedBy(timeline, row, ev, pages, slices, lastValid, nextCursor, resumed, crossed)
    requires row.source != "" && row.windowStart < row.windowEnd
    requires ProofInputs(ev, failed).1.terminalProven && ev.validResponse && ev.pages > 0
    ensures forall j :: 0 <= j < |timeline| && row.windowStart <= timeline[j].at < row.windowEnd ==> timeline[j].id in ev.observations
  {
    var fresh' := Fresh(row.source, Some(row.windowStart), Some(row.windowEnd));
    TraverseKeepsWindow(fresh', pages);
    ClosingKeeps(Traverse(fresh', pages), lastValid, nextCursor, resumed, crossed);
    forall j: nat | j < |timeline| && row.windowStart <= timeline[j].at < row.windowEnd
      ensures timeline[j].id in ev.observations
    {
      TerminalProofIsSound(timeline, row.source, row.windowStart, row.windowEnd, pages, slices,
                           lastValid, nextCursor, resumed, crossed, failed, j);
    }
  }

  lemma CompleteIsTerminal(ev: Record, failed: bool)
    requires EvaluateCompleteness(ProofInputs(ev, failed).0) == Complete
    ensures ProofInputs(ev, failed).1.terminalProven && ev.validResponse && ev.pages > 0
  {
  }

  lemma ClosingKeeps(read: Record, lastValid: bool, nextCursor: string, resumed: bool, crossed: bool)
    ensures var ev := Close(read, lastValid, nextCursor, resumed, crossed);
            ev.pages == read.pages && ev.validResponse == read.validResponse && ev.observations == read.observations
  {
  }

  lemma StepKeepsObserved(t: Tables, call: Call, published: string -> seq<Entry>, snapshot: seq<Entry>)
    requires ShippedCore(call) && HonestFinish(t, call, published, snapshot) && Invariant(t)
    requires forall i :: 0 <= i < |t.attempts| ==> WindowObserved(published(t.attempts[i].source), t.attempts[i])
    ensures forall i :: 0 <= i < |Step(t, call).attempts|
                        ==> WindowObserved(published(Step(t, call).attempts[i].source), Step(t, call).attempts[i])
  {
    var b := Step(t, call).attempts;
    StepExtends(t, call);
    forall i | 0 <= i < |b| ensures WindowObserved(published(b[i].source), b[i]) {
      if i < |t.attempts| {
        assert RowSound(t.attempts[i]);
        if call.Finish? && b[i] != t.attempts[i] {
          FinishObserves(t, call, published, snapshot, i);
        } else {
          OldRowStaysObserved(t, call, i, published);
        }
      } else {
        PlannedNotComplete(t.attempts, call.runId, call.ids, call.sources, call.start, call.end, i);
      }
    }
  }

  lemma OldRowStaysObserved(t: Tables, call: Call, i: nat, published: string -> seq<Entry>)
    requires Invariant(t) && i < |t.attempts| && i < |Step(t, call).attempts|
    requires call.Finish? ==> Step(t, call).attempts[i] == t.attempts[i]
    requires WindowObserved(published(t.attempts[i].source), t.attempts[i])
    ensures WindowObserved(published(Step(t, call).attempts[i].source), Step(t, call).attempts[i])
  {
    assert RowSound(t.attempts[i]);
    StepExtends(t, call);
    if !t.attempts[i].finalized && !call.Finish? {
      assert Step(t, call).attempts[i].status != Complete by {
        if call.Plan? && |call.ids| == |call.sources| {
          PlanAppends(t.attempts, call.runId, call.ids, call.sources, call.start, call.end);
        }
      }
    }
  }

  lemma {:induction false} CompleteObservedItsWindow(calls: seq<Call>, published: string -> seq<Entry>, seen: nat -> seq<Entry>)
    requires HonestRun(calls, published, seen)
    ensures forall i :: 0 <= i < |Run(calls).attempts| ==> WindowObserved(published(Run(calls).attempts[i].source), Run(calls).attempts[i])
  {
    if calls != [] {
      var init := calls[..|calls| - 1];
      assert forall n :: 0 <= n < |init| ==> init[..n] == calls[..n];
      CompleteObservedItsWindow(init, published, seen);
      RunInvariant(init);
      assert calls[..|calls| - 1] == init;
      StepKeepsObserved(Run(init), calls[|calls| - 1], published, seen(|calls| - 1));
    }
  }

  /**
   The whole protocol: any interleaving of attempts, among them resumed, failed and partial ones, while the sources
   go on publishing. Whatever the core would call complete was read honestly, not before its window was published,
   and the core answers by its rule or fails. Then every post published between the start of the source's first
   advancing window and its cursor is among the observations of a complete attempt.
   */
  lemma NoSilentMiss(calls: seq<Call>, published: string -> seq<Entry>, seen: nat -> seq<Entry>, source: string, first: nat, i: nat) returns (k: nat)
    requires HonestRun(calls, published, seen)
    requires source in Run(calls).cursors
    requires var a := Run(calls).attempts; first < |a| && a[first].source == source && FirstAdvance(a, first)
    requires i < |published(source)|
    requires Run(calls).attempts[first].windowStart <= published(source)[i].at < Run(calls).cursors[source].through
    ensures var a := Run(calls).attempts;
            && k < |a| && a[k].source == source && a[k].status == Complete && a[k].finalized
            && a[k].payload.Final? && published(source)[i].id in a[k].payload.observations
  {
    k := GapFree(calls, source, first, published(source)[i].at);
    CompleteObservedItsWindow(calls, published, seen);
    assert WindowObserved(published(source), Run(calls).attempts[k]);
  }
}
