/**
 What the coverage of a dated request means, and what one step does to its deliveries: in terms of what the step was
 told by the collector, the archive and the delivery, and over whole runs.
 */
module DateJobCoverage {
  import opened Common
  import opened DateJobs
  import opened DateJobProof

  // ---------------------------------------------------------------- one step

  /** What a collection told of a source. */
  predicate Told(w: World, handle: string, coverage: Coverage) {
    match coverage
    case Disabled => handle !in w.enabled
    case Covered => handle in w.enabled && w.collected.Returned? && !w.collected.errors
    case Partial => handle in w.enabled && if w.collected.Returned? then w.collected.errors else w.collected.recovered
    case Failed(reason) => handle in w.enabled && w.collected.Raised? && !w.collected.recovered && reason == w.collected.reason
  }

  predicate Sweeps(job: Job, w: World, handle: string) {
    job.pending != [] && job.pending[0] == handle && !Raises(job, w)
  }

  predicate Changed(before: Job, after: Job, handle: string) {
    handle in after.coverage && (handle !in before.coverage || before.coverage[handle] != after.coverage[handle])
  }

  /** Coverage is only ever what the collection of the first pending source told, or that a selected update's author is not allowed. */
  lemma CoverageMeans(job: Job, w: World, handle: string)
    requires Changed(job, JobStep(job, w), handle)
    ensures var told := JobStep(job, w).coverage[handle];
      || (Sweeps(job, w, handle) && Told(w, handle, told))
      || (job.pending == [] && !Raises(job, w) && w.lookup == Foreign(handle) && told == Disabled)
  {
    if !Raises(job, w) && job.pending != [] {
      SweptMeans(Loaded(job, w.local), w, handle);
    } else {
      var ready := Chosen(Loaded(job, w.local), w.chosen);
      if !Raises(job, w) && Remaining(ready.selected, ready.delivered) != [] {
        DeliveryDisables(ready, w, handle);
      }
    }
  }

  lemma SweptMeans(job: Job, w: World, handle: string)
    requires job.pending != [] && Changed(job, Swept(job, w), handle)
    ensures handle == job.pending[0] && Told(w, handle, Swept(job, w).coverage[handle])
  {
  }

  lemma DeliveryDisables(job: Job, w: World, handle: string)
    requires Remaining(job.selected, job.delivered) != [] && Changed(job, Delivered(job, w), handle)
    ensures w.lookup == Foreign(handle) && Delivered(job, w).coverage[handle] == Disabled
  {
  }

  /** A step with a pending source settles the first one. */
  lemma SweepSettles(job: Job, w: World)
    requires job.pending != [] && !Raises(job, w)
    ensures var after := JobStep(job, w);
      && after.pending == job.pending[1..] && after.status == job.status && after.delivered == job.delivered
      && job.pending[0] in after.coverage && Told(w, job.pending[0], after.coverage[job.pending[0]])
      && forall h :: h in job.coverage ==> h in after.coverage && (h != job.pending[0] ==> after.coverage[h] == job.coverage[h])
  {
  }

  /** The ids a collection found, of a source that was asked. */
  predicate Finds(job: Job, w: World, id: string) {
    job.pending != [] && job.pending[0] in w.enabled
    && id in (if w.collected.Returned? then w.collected.ids else w.collected.found)
  }

  lemma {:induction false} WithNewMember(known: seq<string>, ids: seq<string>, id: string)
    ensures id in WithNew(known, ids) <==> id in known || id in ids
  {
    if ids != [] {
      WithNewMember(known, ids[..|ids| - 1], id);
      assert ids == ids[..|ids| - 1] + [ids[|ids| - 1]];
    }
  }

  /** A step that does not raise observes what was stored locally, once, and what the collection found; nothing is lost. */
  lemma StepObserves(job: Job, w: World, id: string)
    requires !Raises(job, w)
    ensures id in JobStep(job, w).observed
            <==> id in job.observed || (!job.localLoaded && id in w.local) || Finds(job, w, id)
  {
    var loaded := Loaded(job, w.local);
    WithNewMember(job.observed, w.local, id);
    if loaded.pending != [] {
      if w.collected.Returned? {
        WithNewMember(loaded.observed, w.collected.ids, id);
      } else {
        WithNewMember(loaded.observed, w.collected.found, id);
      }
    }
  }

  // ---------------------------------------------------------------- delivering and closing

  /** What the step delivers from: the selection made now, or before. */
  function Selection(job: Job, w: World): seq<string> {
    if job.status.Collecting? then w.chosen else job.selected
  }

  /** The first selected update that was not delivered. */
  predicate FirstOpen(selected: seq<string>, delivered: seq<string>, id: string) {
    exists k :: 0 <= k < |selected| && selected[k] == id && id !in delivered && forall j :: 0 <= j < k ==> selected[j] in delivered
  }

  lemma {:induction false} FirstRemaining(selected: seq<string>, delivered: seq<string>)
    requires Remaining(selected, delivered) != []
    ensures FirstOpen(selected, delivered, Remaining(selected, delivered)[0])
  {
    if selected[0] in delivered {
      FirstRemaining(selected[1..], delivered);
      var id := Remaining(selected, delivered)[0];
      var k :| 0 <= k < |selected[1..]| && selected[1..][k] == id && id !in delivered && forall j :: 0 <= j < k ==> selected[1..][j] in delivered;
      assert selected[k + 1] == id;
      forall j | 0 <= j < k + 1 ensures selected[j] in delivered {
        assert j > 0 ==> selected[j] == selected[1..][j - 1];
      }
    } else {
      assert selected[0] == Remaining(selected, delivered)[0];
    }
  }

  lemma FirstOpenIsUnique(selected: seq<string>, delivered: seq<string>, a: string, b: string)
    requires FirstOpen(selected, delivered, a) && FirstOpen(selected, delivered, b)
    ensures a == b
  {
    var j :| 0 <= j < |selected| && selected[j] == a && a !in delivered && forall i :: 0 <= i < j ==> selected[i] in delivered;
    var k :| 0 <= k < |selected| && selected[k] == b && b !in delivered && forall i :: 0 <= i < k ==> selected[i] in delivered;
    assert j == k;
  }

  predicate AllDelivered(selected: seq<string>, delivered: seq<string>) {
    forall k :: 0 <= k < |selected| ==> selected[k] in delivered
  }

  lemma RemainingIs(selected: seq<string>, delivered: seq<string>, id: string)
    ensures AllDelivered(selected, delivered) <==> Remaining(selected, delivered) == []
    ensures FirstOpen(selected, delivered, id) <==> Remaining(selected, delivered) != [] && Remaining(selected, delivered)[0] == id
  {
    forall u ensures u in Remaining(selected, delivered) <==> u in selected && u !in delivered {
      RemainingMember(selected, delivered, u);
    }
    if Remaining(selected, delivered) != [] {
      var first := Remaining(selected, delivered)[0];
      FirstRemaining(selected, delivered);
      assert first in Remaining(selected, delivered);
      if FirstOpen(selected, delivered, id) {
        FirstOpenIsUnique(selected, delivered, first, id);
      }
    }
  }

  /** An update is delivered exactly when it is the first open one, still usable, and accepted; and then it alone. */
  lemma DeliversIff(job: Job, w: World, id: string)
    requires Active(job)
    ensures JobStep(job, w).delivered == job.delivered + [id]
            <==> job.pending == [] && !Raises(job, w) && FirstOpen(Selection(job, w), job.delivered, id) && w.lookup.Usable? && w.accepted
    ensures JobStep(job, w).delivered == job.delivered || exists u :: JobStep(job, w).delivered == job.delivered + [u]
  {
    RemainingIs(Selection(job, w), job.delivered, id);
    var ready := Chosen(Loaded(job, w.local), w.chosen);
    assert job.pending == [] ==> ready.selected == Selection(job, w) && ready.delivered == job.delivered;
    if job.pending == [] && !Raises(job, w) && Remaining(ready.selected, ready.delivered) != [] {
      DeliveredMeans(ready, w, id);
    } else {
      NothingDelivered(job, w);
    }
  }

  lemma DeliveredMeans(job: Job, w: World, id: string)
    requires Remaining(job.selected, job.delivered) != []
    ensures Delivered(job, w).delivered == job.delivered + [id]
            <==> Remaining(job.selected, job.delivered)[0] == id && w.lookup.Usable? && w.accepted
    ensures Delivered(job, w).delivered == job.delivered || exists u :: Delivered(job, w).delivered == job.delivered + [u]
  {
    if Delivered(job, w).delivered == job.delivered + [id] {
      assert (job.delivered + [id])[|job.delivered|] == id;
    }
  }

  lemma NothingDelivered(job: Job, w: World)
    requires var ready := Chosen(Loaded(job, w.local), w.chosen);
      job.pending != [] || Raises(job, w) || Remaining(ready.selected, ready.delivered) == []
    ensures JobStep(job, w).delivered == job.delivered
  {
  }

  /** The minutes before the next try. */
  function Backoff(attempts: nat): nat {
    if attempts == 1 then 2 else if attempts == 2 then 4 else if attempts == 3 then 8 else if attempts == 4 then 16 else 30
  }

  lemma BackoffIs(attempts: nat)
    requires attempts > 0
    ensures Min(30, Pow2(attempts)) == Backoff(attempts)
  {
    assert Pow2(1) == 2 && Pow2(2) == 4 && Pow2(3) == 8 && Pow2(4) == 16;
    if attempts > 4 { PowGrows(attempts); }
  }

  lemma {:induction false} PowGrows(n: nat)
    requires n > 4
    ensures Pow2(n) >= 30
  {
    if n > 5 { PowGrows(n - 1); } else { assert Pow2(4) == 16; }
  }

  /** A refusal counts one attempt and puts the job off, longer each time; the third gives the update up. */
  lemma RefusalMeans(job: Job, w: World, id: string)
    requires Active(job) && job.pending == [] && !Raises(job, w) && FirstOpen(Selection(job, w), job.delivered, id)
    requires w.lookup.Usable? && !w.accepted
    ensures var after, tries := JobStep(job, w), Attempts(job.attempts, id) + 1;
      && after.delivered == job.delivered && after.selected == Selection(job, w)
      && after.attempts == job.attempts[id := tries]
      && after.retryAfter == Some(w.now + Backoff(tries) * MINUTE)
      && after.status == if tries >= 3 then TranslationPending else Delivering
  {
    RemainingIs(Selection(job, w), job.delivered, id);
    DeliveringStep(job, w);
    RefusedDelivery(Chosen(Loaded(job, w.local), w.chosen), w, id);
  }

  lemma RefusedDelivery(job: Job, w: World, id: string)
    requires Remaining(job.selected, job.delivered) != [] && Remaining(job.selected, job.delivered)[0] == id
    requires job.status.Delivering? && w.lookup.Usable? && !w.accepted
    ensures var after, tries := Delivered(job, w), Attempts(job.attempts, id) + 1;
      && after.delivered == job.delivered && after.selected == job.selected && after.attempts == job.attempts[id := tries]
      && after.retryAfter == Some(w.now + Backoff(tries) * MINUTE)
      && after.status == if tries >= 3 then TranslationPending else Delivering
  {
    BackoffIs(Attempts(job.attempts, id) + 1);
  }

  /** An update that is gone ends the job as incomplete; one of a source not allowed is dropped, and its author disabled. */
  lemma LostMeans(job: Job, w: World, id: string)
    requires Active(job) && job.pending == [] && !Raises(job, w) && FirstOpen(Selection(job, w), job.delivered, id) && !w.lookup.Usable?
    requires NoDuplicates(Selection(job, w))
    ensures var after := JobStep(job, w);
      && after.delivered == job.delivered && after.attempts == job.attempts
      && (w.lookup.Missing? ==> after.status == Incomplete)
      && (w.lookup.Foreign? ==> after.status == Delivering && after.coverage == job.coverage[w.lookup.author := Disabled]
                                && forall u :: u in after.selected <==> u in Selection(job, w) && u != id)
  {
    RemainingIs(Selection(job, w), job.delivered, id);
    forall u ensures u in Without(Selection(job, w), id) <==> u in Selection(job, w) && u != id {
      WithoutMember(Selection(job, w), id, u);
    }
  }

  lemma {:induction false} WithoutMember(s: seq<string>, id: string, u: string)
    requires NoDuplicates(s)
    ensures u in Without(s, id) <==> u in s && u != id
  {
    if s != [] && s[0] != id {
      WithoutMember(s[1..], id, u);
    } else if s != [] {
      assert id !in s[1..];
    }
  }

  /** A job finishes exactly when all was swept and covered, the day is over, and everything selected was delivered. */
  lemma FinishesIff(job: Job, w: World)
    requires Active(job)
    ensures JobStep(job, w).status.Finished?
            <==> job.pending == [] && !Raises(job, w) && AllDelivered(Selection(job, w), job.delivered) && job.end <= w.now
                 && job.coverage != map[] && forall h :: h in job.coverage ==> job.coverage[h] == Covered
  {
    RemainingIs(Selection(job, w), job.delivered, "");
    var ready := Chosen(Loaded(job, w.local), w.chosen);
    if job.pending == [] && !Raises(job, w) && Remaining(ready.selected, ready.delivered) == [] {
      assert JobStep(job, w) == ClosedOut(ready, w.now) && ready.coverage == job.coverage && ready.end == job.end;
    } else {
      StaysUnfinished(job, w);
    }
  }

  lemma StaysUnfinished(job: Job, w: World)
    requires Active(job)
    requires var ready := Chosen(Loaded(job, w.local), w.chosen);
      job.pending != [] || Raises(job, w) || Remaining(ready.selected, ready.delivered) != []
    ensures !JobStep(job, w).status.Finished?
  {
    if Raises(job, w) {
      RaisedStays(job, w);
    } else if job.pending != [] {
      SweptStays(job, w);
    } else {
      DeliveringStays(job, w);
    }
  }

  lemma RaisedStays(job: Job, w: World)
    requires Active(job) && Raises(job, w)
    ensures Active(JobStep(job, w)) && JobStep(job, w).generation == job.generation
  {
  }

  lemma SweptStays(job: Job, w: World)
    requires !Raises(job, w) && job.pending != []
    ensures JobStep(job, w).status == job.status && JobStep(job, w).generation == job.generation
  {
    assert JobStep(job, w) == Swept(Loaded(job, w.local), w);
  }

  /** The step of a job with something selected and not delivered. */
  lemma DeliveringStep(job: Job, w: World)
    requires Active(job) && job.pending == [] && !Raises(job, w)
    requires Remaining(Selection(job, w), job.delivered) != []
    ensures var ready := Chosen(Loaded(job, w.local), w.chosen);
      && ready.selected == Selection(job, w) && ready.delivered == job.delivered && ready.attempts == job.attempts
      && ready.status == Delivering && ready.coverage == job.coverage && ready.generation == job.generation
      && JobStep(job, w) == Delivered(ready, w)
  {
  }

  lemma DeliveringStays(job: Job, w: World)
    requires Active(job) && job.pending == [] && !Raises(job, w) && Remaining(Selection(job, w), job.delivered) != []
    ensures !JobStep(job, w).status.Finished? && JobStep(job, w).generation == job.generation
  {
    DeliveringStep(job, w);
    DeliveredStays(Chosen(Loaded(job, w.local), w.chosen), w);
  }

  lemma DeliveredStays(job: Job, w: World)
    requires job.status.Delivering? && Remaining(job.selected, job.delivered) != []
    ensures !Delivered(job, w).status.Finished? && Delivered(job, w).generation == job.generation
  {
  }

  /** A job that has nothing left to do but does not finish is incomplete, and provisional when its day is not over. */
  lemma ClosesIncomplete(job: Job, w: World)
    requires Active(job) && job.pending == [] && !Raises(job, w) && AllDelivered(Selection(job, w), job.delivered)
    ensures JobStep(job, w).status.Finished? || JobStep(job, w).status == Incomplete
    ensures JobStep(job, w).provisional <==> w.now < job.end
  {
    RemainingIs(Selection(job, w), job.delivered, "");
  }

  // ---------------------------------------------------------------- whose turn it is

  predicate Running(job: Job) {
    job.status == Collecting || job.status == Delivering
  }

  /** The job is running, its delay is over, and it is scoped to a source if any running job is. */
  predicate MayGo(jobs: seq<Job>, i: nat, now: Time)
    requires i < |jobs|
  {
    && Running(jobs[i]) && (jobs[i].retryAfter.Some? ==> jobs[i].retryAfter.value <= now)
    && ((exists k :: 0 <= k < |jobs| && Running(jobs[k]) && jobs[k].sourceFilter != "") ==> jobs[i].sourceFilter != "")
  }

  /** The first job that may go gets one step, and no other is touched. */
  lemma FirstGoes(jobs: seq<Job>, w: World, i: nat)
    requires i < |jobs|
    ensures MayGo(jobs, i, w.now) && (forall k :: 0 <= k < i ==> !MayGo(jobs, k, w.now)) ==> Processed(jobs, w) == jobs[i := JobStep(jobs[i], w)]
    ensures (forall k :: 0 <= k < |jobs| ==> !MayGo(jobs, k, w.now)) ==> Processed(jobs, w) == jobs
  {
    var owners := exists k :: 0 <= k < |jobs| && Owning(jobs[k]);
    assert owners <==> exists k :: 0 <= k < |jobs| && Running(jobs[k]) && jobs[k].sourceFilter != "";
    forall k | 0 <= k < |jobs| ensures MayGo(jobs, k, w.now) <==> DueNow(jobs[k], owners, w.now) {
    }
  }

  // ---------------------------------------------------------------- requests

  /** A request leaves an active job for its day; unless one was active already, it starts over with the given sources. */
  lemma RequestIsActive(jobs: seq<Job>, id: string, end: Time, filter: string, handles: seq<string>) returns (i: nat)
    ensures var after := Enqueued(jobs, id, end, filter, handles);
      && i < |after| && after[i].id == id && Active(after[i])
      && (i < |jobs| && Active(jobs[i]) ==> after[i] == jobs[i])
      && (!(i < |jobs| && Active(jobs[i])) ==>
            && after[i].status == Collecting && after[i].pending == handles && after[i].coverage == map[] && after[i].observed == []
            && after[i].selected == [] && after[i].retryAfter == None && !after[i].localLoaded
            && after[i].delivered == (if i < |jobs| then jobs[i].delivered else []))
  {
    i := IndexOf(jobs, id);
  }

  // ---------------------------------------------------------------- coverage over runs

  /** At that point of the run the source was the next one of the job's generation, and was collected without an error. */
  ghost predicate CleanAt(calls: seq<Call>, n: nat, i: nat, generation: nat, handle: string)
    requires n < |calls|
  {
    var jobs := Run(calls[..n]);
    && calls[n].Tick? && Picked(jobs, calls[n].w.now) == i && i < |jobs|
    && jobs[i].generation == generation && Sweeps(jobs[i], calls[n].w, handle)
    && Told(calls[n].w, handle, Covered)
  }

  ghost predicate Clean(calls: seq<Call>, i: nat, generation: nat, handle: string) {
    exists n :: 0 <= n < |calls| && CleanAt(calls, n, i, generation, handle)
  }

  lemma CleanStays(calls: seq<Call>, i: nat, generation: nat, handle: string)
    requires calls != [] && Clean(calls[..|calls| - 1], i, generation, handle)
    ensures Clean(calls, i, generation, handle)
  {
    var init := calls[..|calls| - 1];
    var n :| 0 <= n < |init| && CleanAt(init, n, i, generation, handle);
    assert init[..n] == calls[..n];
    assert CleanAt(calls, n, i, generation, handle);
  }

  lemma StepKeepsGeneration(job: Job, w: World)
    requires Active(job)
    ensures JobStep(job, w).generation == job.generation
  {
    if Raises(job, w) {
      RaisedStays(job, w);
    } else if job.pending != [] {
      SweptStays(job, w);
    } else if Remaining(Selection(job, w), job.delivered) != [] {
      DeliveringStays(job, w);
    } else {
      ClosingStays(job, w);
    }
  }

  lemma ClosingStays(job: Job, w: World)
    requires Active(job) && job.pending == [] && !Raises(job, w) && Remaining(Selection(job, w), job.delivered) == []
    ensures JobStep(job, w).generation == job.generation
  {
    assert JobStep(job, w) == ClosedOut(Chosen(Loaded(job, w.local), w.chosen), w.now);
  }

  /** In every run, a source counts as covered only if it was collected without an error in the job's own generation. */
  lemma {:induction false} CoveredMeans(calls: seq<Call>, i: nat, handle: string)
    requires i < |Run(calls)| && handle in Run(calls)[i].coverage && Run(calls)[i].coverage[handle] == Covered
    ensures Clean(calls, i, Run(calls)[i].generation, handle)
  {
    var init, last := calls[..|calls| - 1], calls[|calls| - 1];
    var before, after := Run(init), Run(calls);
    if last.Tick? && Picked(before, last.w.now) == i {
      StepKeepsGeneration(before[i], last.w);
      if Changed(before[i], after[i], handle) {
        CoverageMeans(before[i], last.w, handle);
        assert calls[..|init|] == init;
        assert CleanAt(calls, |init|, i, after[i].generation, handle);
      } else {
        CoveredMeans(init, i, handle);
        CleanStays(calls, i, after[i].generation, handle);
      }
    } else {
      assert i < |before| && after[i] == before[i];
      CoveredMeans(init, i, handle);
      CleanStays(calls, i, after[i].generation, handle);
    }
  }

  /** So a finished job collected every source of its generation without an error. */
  lemma FinishedWasCollected(calls: seq<Call>, i: nat, handle: string)
    requires Monotone(calls) && i < |Run(calls)| && Run(calls)[i].status.Finished? && handle in Run(calls)[i].swept
    ensures Clean(calls, i, Run(calls)[i].generation, handle)
  {
    RunSound(calls);
    CoveredMeans(calls, i, handle);
  }
}
