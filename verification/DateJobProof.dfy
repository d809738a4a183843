/** Safety and progress of dated requests, over every run of steps and repeated requests. */
module DateJobProof {
  import opened Common
  import opened DateJobs

  lemma {:induction false} RemainingMember(selected: seq<string>, delivered: seq<string>, id: string)
    ensures id in Remaining(selected, delivered) <==> id in selected && id !in delivered
  {
    if selected != [] { RemainingMember(selected[1..], delivered, id); }
  }

  // ---------------------------------------------------------------- safety

  /** The sweep has visited every handle of the generation that is no longer pending. */
  predicate SweepTracked(job: Job) {
    forall h :: h in job.swept ==> h in job.pending || h in job.coverage
  }

  /** A finished job: the whole generation covered, the day over, everything selected delivered. */
  predicate FinishedMeans(job: Job, clock: Time) {
    job.status.Finished? ==>
      && job.pending == [] && job.coverage != map[] && job.end <= clock
      && (forall h :: h in job.swept ==> h in job.coverage && job.coverage[h] == Covered)
      && (forall id :: id in job.selected ==> id in job.delivered)
  }

  predicate JobSafe(job: Job) {
    NoDuplicates(job.delivered) && SweepTracked(job) && (!job.status.Collecting? ==> job.pending == [])
  }

  lemma SweepIsSafe(job: Job, w: World)
    requires JobSafe(job) && job.status.Collecting? && job.pending != []
    ensures JobSafe(Swept(job, w)) && Swept(job, w).status.Collecting?
  {
    assert job.pending == [job.pending[0]] + job.pending[1..];
  }

  lemma DeliveryIsSafe(job: Job, w: World)
    requires JobSafe(job) && job.status.Delivering? && Remaining(job.selected, job.delivered) != []
    ensures JobSafe(Delivered(job, w)) && !Delivered(job, w).status.Finished?
  {
    RemainingMember(job.selected, job.delivered, Remaining(job.selected, job.delivered)[0]);
  }

  lemma ClosingIsSafe(job: Job, now: Time)
    requires JobSafe(job) && job.status.Delivering? && Remaining(job.selected, job.delivered) == []
    ensures JobSafe(ClosedOut(job, now)) && FinishedMeans(ClosedOut(job, now), now)
  {
    forall id | id in job.selected ensures id in job.delivered {
      RemainingMember(job.selected, job.delivered, id);
    }
  }

  lemma JobStepSafe(job: Job, w: World)
    requires JobSafe(job) && Active(job)
    ensures JobSafe(JobStep(job, w)) && FinishedMeans(JobStep(job, w), w.now)
  {
    var loaded, ready := Loaded(job, w.local), Chosen(Loaded(job, w.local), w.chosen);
    assert JobSafe(loaded) && Active(loaded) && (loaded.pending == [] ==> JobSafe(ready));
    if !Raises(job, w) {
      if loaded.pending != [] {
        SweepIsSafe(loaded, w);
      } else if Remaining(ready.selected, ready.delivered) != [] {
        DeliveryIsSafe(ready, w);
      } else {
        ClosingIsSafe(ready, w.now);
      }
    }
  }

  /** A step never takes back a delivery. */
  lemma JobStepDelivers(job: Job, w: World)
    ensures Prefix(job.delivered, JobStep(job, w).delivered) && JobStep(job, w).id == job.id
  {
    var loaded, ready := Loaded(job, w.local), Chosen(Loaded(job, w.local), w.chosen);
    if loaded.pending != [] {
      SweptKeeps(loaded, w);
    } else if Remaining(ready.selected, ready.delivered) != [] {
      DeliveredKeeps(ready, w);
    }
  }

  lemma SweptKeeps(job: Job, w: World)
    requires job.pending != []
    ensures Swept(job, w).delivered == job.delivered && Swept(job, w).id == job.id
  {
  }

  lemma DeliveredKeeps(job: Job, w: World)
    requires Remaining(job.selected, job.delivered) != []
    ensures Prefix(job.delivered, Delivered(job, w).delivered) && Delivered(job, w).id == job.id
  {
  }

  datatype Call =
    | Enqueue(id: string, end: Time, filter: string, handles: seq<string>)
    | Tick(w: World)

  function Step(jobs: seq<Job>, call: Call): seq<Job> {
    match call
    case Enqueue(id, end, filter, handles) => Enqueued(jobs, id, end, filter, handles)
    case Tick(w) => Processed(jobs, w)
  }

  function Run(calls: seq<Call>): seq<Job> {
    if calls == [] then [] else Step(Run(calls[..|calls| - 1]), calls[|calls| - 1])
  }

  /** The time of the last tick. */
  function Clock(calls: seq<Call>): Option<Time> {
    if calls == [] then None
    else if calls[|calls| - 1].Tick? then Some(calls[|calls| - 1].w.now)
    else Clock(calls[..|calls| - 1])
  }

  /** Ticks never go back in time. */
  ghost predicate Monotone(calls: seq<Call>) {
    forall n :: 0 <= n < |calls| && calls[n].Tick? && Clock(calls[..n]).Some? ==> Clock(calls[..n]).value <= calls[n].w.now
  }

  ghost predicate AllSound(jobs: seq<Job>, clock: Option<Time>) {
    && (forall i :: 0 <= i < |jobs| ==> JobSafe(jobs[i]))
    && (forall i :: 0 <= i < |jobs| && jobs[i].status.Finished? ==> clock.Some? && FinishedMeans(jobs[i], clock.value))
    && (forall i, j :: 0 <= i < j < |jobs| ==> jobs[i].id != jobs[j].id)
  }

  lemma TickKeepsSound(jobs: seq<Job>, clock: Option<Time>, w: World)
    requires AllSound(jobs, clock) && (clock.Some? ==> clock.value <= w.now)
    ensures AllSound(Processed(jobs, w), Some(w.now))
  {
    var i := Picked(jobs, w.now);
    if i < |jobs| {
      JobStepSafe(jobs[i], w);
      JobStepDelivers(jobs[i], w);
      ReplacedIsSound(jobs, clock, i, JobStep(jobs[i], w), w.now);
    }
  }

  lemma ReplacedIsSound(jobs: seq<Job>, clock: Option<Time>, i: nat, job: Job, now: Time)
    requires AllSound(jobs, clock) && (clock.Some? ==> clock.value <= now) && i < |jobs|
    requires JobSafe(job) && FinishedMeans(job, now) && job.id == jobs[i].id
    ensures AllSound(jobs[i := job], Some(now))
  {
  }

  lemma EnqueueKeepsSound(jobs: seq<Job>, clock: Option<Time>, id: string, end: Time, filter: string, handles: seq<string>)
    requires AllSound(jobs, clock)
    ensures AllSound(Enqueued(jobs, id, end, filter, handles), clock)
  {
  }

  /** Every reachable job table is sound: in particular every finished job means what it says. */
  lemma {:induction false} RunSound(calls: seq<Call>)
    requires Monotone(calls)
    ensures AllSound(Run(calls), Clock(calls))
  {
    if calls != [] {
      var init, last := calls[..|calls| - 1], calls[|calls| - 1];
      assert forall n :: 0 <= n < |init| ==> init[..n] == calls[..n];
      RunSound(init);
      match last {
        case Enqueue(id, end, filter, handles) => EnqueueKeepsSound(Run(init), Clock(init), id, end, filter, handles);
        case Tick(w) =>
          assert calls[..|calls| - 1] == init;
          TickKeepsSound(Run(init), Clock(init), w);
      }
    }
  }

  /** Rows keep their place and id, and no step or repeated request takes back a delivery. */
  ghost predicate DeliveriesKept(before: seq<Job>, after: seq<Job>) {
    |before| <= |after| && forall i :: 0 <= i < |before| ==> after[i].id == before[i].id && Prefix(before[i].delivered, after[i].delivered)
  }

  lemma StepKeepsDeliveries(jobs: seq<Job>, call: Call)
    ensures DeliveriesKept(jobs, Step(jobs, call))
  {
    forall i | 0 <= i < |jobs| ensures Step(jobs, call)[i].id == jobs[i].id && Prefix(jobs[i].delivered, Step(jobs, call)[i].delivered) {
      if call.Tick? { JobStepDelivers(jobs[i], call.w); }
    }
  }

  lemma {:induction false} RunKeepsDeliveries(calls: seq<Call>, n: nat)
    requires n <= |calls|
    ensures DeliveriesKept(Run(calls[..n]), Run(calls))
    decreases |calls|
  {
    if n == |calls| {
      assert calls[..n] == calls;
    } else {
      var init := calls[..|calls| - 1];
      assert init[..n] == calls[..n];
      RunKeepsDeliveries(init, n);
      StepKeepsDeliveries(Run(init), calls[|calls| - 1]);
      var a, b, c := Run(calls[..n]), Run(init), Run(calls);
      forall i | 0 <= i < |a| ensures Prefix(a[i].delivered, c[i].delivered) {
        assert Prefix(a[i].delivered, b[i].delivered) && Prefix(b[i].delivered, c[i].delivered);
        assert c[i].delivered[..|a[i].delivered|] == c[i].delivered[..|b[i].delivered|][..|a[i].delivered|];
      }
    }
  }

  /** While a source-scoped job is active, no other job is worked on. */
  lemma OwnersGoFirst(jobs: seq<Job>, w: World, i: nat)
    requires i < |jobs| && (exists k :: 0 <= k < |jobs| && Owning(jobs[k])) && !Owning(jobs[i])
    ensures Processed(jobs, w)[i] == jobs[i]
  {
  }

  // ---------------------------------------------------------------- progress

  /** Delivery attempts left for an id before the job gives up on it. */
  function Left(attempts: map<string, nat>, id: string): nat {
    if Attempts(attempts, id) < 2 then 3 - Attempts(attempts, id) else 1
  }

  function Budget(attempts: map<string, nat>, ids: seq<string>): nat {
    if ids == [] then 0 else Left(attempts, ids[0]) + Budget(attempts, ids[1..])
  }

  function Work(job: Job): nat {
    Budget(job.attempts, Remaining(job.selected, job.delivered))
  }

  /** Active jobs first by pending sources, then by collecting or not, then by delivery attempts left. */
  predicate Closer(after: Job, before: Job) {
    || !Active(after)
    || |after.pending| < |before.pending|
    || (|after.pending| == |before.pending| && before.status.Collecting? && after.status.Delivering?)
    || (|after.pending| == |before.pending| && before.status == after.status == Delivering && Work(after) < Work(before))
  }

  lemma {:induction false} RemainingAfterDelivery(selected: seq<string>, delivered: seq<string>, id: string)
    requires NoDuplicates(selected) && Remaining(selected, delivered) != [] && Remaining(selected, delivered)[0] == id
    ensures Remaining(selected, delivered + [id]) == Remaining(selected, delivered)[1..]
    ensures Remaining(Without(selected, id), delivered) == Remaining(selected, delivered)[1..]
  {
    if selected[0] in delivered {
      RemainingAfterDelivery(selected[1..], delivered, id);
      assert selected[0] != id by { RemainingMember(selected, delivered, id); }
    } else {
      assert selected[0] == id;
      RemainingUntouched(selected[1..], delivered, id);
    }
  }

  lemma {:induction false} RemainingUntouched(selected: seq<string>, delivered: seq<string>, id: string)
    requires id !in selected
    ensures Remaining(selected, delivered + [id]) == Remaining(selected, delivered)
  {
    if selected != [] { RemainingUntouched(selected[1..], delivered, id); }
  }

  lemma {:induction false} RemainingDistinct(selected: seq<string>, delivered: seq<string>)
    requires NoDuplicates(selected)
    ensures NoDuplicates(Remaining(selected, delivered))
  {
    if selected != [] {
      RemainingDistinct(selected[1..], delivered);
      RemainingMember(selected[1..], delivered, selected[0]);
    }
  }

  lemma {:induction false} BudgetSame(before: map<string, nat>, after: map<string, nat>, ids: seq<string>)
    requires forall id :: id in ids ==> Attempts(after, id) == Attempts(before, id)
    ensures Budget(after, ids) == Budget(before, ids)
  {
    if ids != [] { BudgetSame(before, after, ids[1..]); }
  }

  /** The step raised before anything was settled: the selection was not made, or was made before. */
  predicate Stuck(job: Job, w: World) {
    Raises(job, w) && !(job.status.Collecting? && (w.fault.AnnouncingFails? || w.fault.DeliveringFails?))
  }

  /** What the measure needs of a job, and every step keeps. */
  predicate Steady(job: Job) {
    NoDuplicates(job.selected) && (job.status.Delivering? ==> job.pending == [])
  }

  /**
   A step on an active job brings it closer to an end, by fewer pending sources, a selection, or fewer attempts left,
   exactly when it did not get stuck: a raise counts no attempt.
   */
  lemma JobStepIsProgressIff(job: Job, w: World)
    requires Active(job) && Steady(job) && NoDuplicates(w.chosen)
    ensures Closer(JobStep(job, w), job) <==> !Stuck(job, w)
    ensures Steady(JobStep(job, w))
  {
    if Stuck(job, w) {
      StuckChangesNothing(job, w);
    } else if job.pending == [] && !Raises(job, w) {
      SettledIsProgress(Loaded(job, w.local), w);
    }
  }

  lemma SettledIsProgress(loaded: Job, w: World)
    requires Active(loaded) && Steady(loaded) && NoDuplicates(w.chosen) && loaded.pending == []
    ensures var ready := Chosen(loaded, w.chosen);
      && (Remaining(ready.selected, ready.delivered) != [] ==> Closer(Delivered(ready, w), loaded) && Steady(Delivered(ready, w)))
      && Closer(ClosedOut(ready, w.now), loaded) && Steady(ClosedOut(ready, w.now))
  {
    var ready := Chosen(loaded, w.chosen);
    if Remaining(ready.selected, ready.delivered) != [] {
      DeliveryIsProgress(ready, w);
    }
  }

  /** A stuck step leaves everything the measure looks at as it was. */
  lemma StuckChangesNothing(job: Job, w: World)
    requires Active(job) && Steady(job) && Stuck(job, w)
    ensures var after := JobStep(job, w);
      && after.pending == job.pending && after.status == job.status && after.selected == job.selected
      && after.delivered == job.delivered && after.attempts == job.attempts && after.retryAfter == job.retryAfter
  {
  }

  lemma {:induction false} WithoutKeepsDistinct(s: seq<string>, id: string)
    requires NoDuplicates(s)
    ensures NoDuplicates(Without(s, id)) && forall x :: x in Without(s, id) ==> x in s
  {
    if s != [] && s[0] != id {
      WithoutKeepsDistinct(s[1..], id);
      assert s[0] !in s[1..];
    }
  }

  lemma DeliveryIsProgress(job: Job, w: World)
    requires job.status.Delivering? && NoDuplicates(job.selected) && Remaining(job.selected, job.delivered) != []
    ensures var after := Delivered(job, w);
            && (!Active(after) || (after.status.Delivering? && Work(after) < Work(job)))
            && NoDuplicates(after.selected) && after.pending == job.pending
  {
    var remaining := Remaining(job.selected, job.delivered);
    RemainingAfterDelivery(job.selected, job.delivered, remaining[0]);
    WithoutKeepsDistinct(job.selected, remaining[0]);
    BudgetShrinks(job, w);
  }

  lemma BudgetShrinks(job: Job, w: World)
    requires job.status.Delivering? && NoDuplicates(job.selected) && Remaining(job.selected, job.delivered) != []
    requires var id := Remaining(job.selected, job.delivered)[0];
      && Remaining(job.selected, job.delivered + [id]) == Remaining(job.selected, job.delivered)[1..]
      && Remaining(Without(job.selected, id), job.delivered) == Remaining(job.selected, job.delivered)[1..]
    ensures !Active(Delivered(job, w)) || Work(Delivered(job, w)) < Work(job)
  {
    var remaining, after := Remaining(job.selected, job.delivered), Delivered(job, w);
    RemainingDistinct(job.selected, job.delivered);
    assert remaining == [remaining[0]] + remaining[1..];
    BudgetSame(job.attempts, after.attempts, remaining[1..]);
  }

  /** One job under the first n due steps of a stream. */
  function Stepped(job: Job, worlds: nat -> World, n: nat): Job
    decreases n
  {
    if n == 0 || !Active(job) then job else Stepped(JobStep(job, worlds(0)), Later(worlds), n - 1)
  }

  function Later(worlds: nat -> World): nat -> World {
    (k: nat) => worlds(k + 1)
  }

  function Sooner(next: nat -> nat): nat -> nat {
    (k: nat) => if next(k + 1) > 0 then next(k + 1) - 1 else 0
  }

  /** Steps without a fault keep coming: `next` names one from every point on. */
  ghost predicate Recovers(worlds: nat -> World, next: nat -> nat) {
    forall k: nat :: next(k) >= k && worlds(next(k)).fault.NoFault?
  }

  ghost predicate Selects(worlds: nat -> World) {
    forall k: nat :: NoDuplicates(worlds(k).chosen)
  }

  lemma RecoversLater(worlds: nat -> World, next: nat -> nat)
    requires Recovers(worlds, next) && Selects(worlds)
    ensures Recovers(Later(worlds), Sooner(next)) && Selects(Later(worlds))
  {
    forall k: nat ensures Sooner(next)(k) >= k && Later(worlds)(Sooner(next)(k)).fault.NoFault? {
      assert next(k + 1) >= k + 1 && worlds(next(k + 1)).fault.NoFault?;
    }
  }

  /**
   Whatever the world returns, and whatever else raises, a job that keeps being due ends as long as steps without
   a fault keep coming.
   */
  lemma JobEnds(job: Job, worlds: nat -> World, next: nat -> nat) returns (n: nat)
    requires Steady(job) && Selects(worlds) && Recovers(worlds, next)
    ensures !Active(Stepped(job, worlds, n))
  {
    n := JobEndsFrom(job, worlds, next, next(0));
  }

  lemma {:induction false} JobEndsFrom(job: Job, worlds: nat -> World, next: nat -> nat, d: nat) returns (n: nat)
    requires Steady(job) && Selects(worlds) && Recovers(worlds, next) && worlds(d).fault.NoFault?
    ensures !Active(Stepped(job, worlds, n))
    decreases Active(job), |job.pending|, job.status.Collecting?, Work(job), d
  {
    n := 0;
    if Active(job) {
      RecoversLater(worlds, next);
      var d' := AfterFirst(job, worlds, next, d);
      n := JobEndsFrom(JobStep(job, worlds(0)), Later(worlds), Sooner(next), d');
      n := n + 1;
    }
  }

  /** After the first step the job is closer to its end, or the next step without a fault is. */
  lemma AfterFirst(job: Job, worlds: nat -> World, next: nat -> nat, d: nat) returns (d': nat)
    requires Active(job) && Steady(job) && Selects(worlds) && Recovers(worlds, next) && worlds(d).fault.NoFault?
    ensures var after := JobStep(job, worlds(0));
      && Steady(after) && Later(worlds)(d').fault.NoFault?
      && (Closer(after, job) || (d' < d && after.pending == job.pending && after.status == job.status && Work(after) == Work(job)))
  {
    JobStepIsProgressIff(job, worlds(0));
    if Stuck(job, worlds(0)) {
      StuckChangesNothing(job, worlds(0));
      d' := d - 1;
    } else {
      RecoversLater(worlds, next);
      d' := Sooner(next)(0);
      assert Sooner(next)(0) >= 0 && Later(worlds)(Sooner(next)(0)).fault.NoFault?;
    }
  }

  // ---------------------------------------------------------------- the whole table

  function Total(weight: Job -> nat, jobs: seq<Job>): nat {
    if jobs == [] then 0 else weight(jobs[0]) + Total(weight, jobs[1..])
  }

  lemma {:induction false} TotalUpdate(weight: Job -> nat, jobs: seq<Job>, i: nat, job: Job)
    requires i < |jobs|
    ensures Total(weight, jobs[i := job]) + weight(jobs[i]) == Total(weight, jobs) + weight(job)
  {
    if i == 0 {
      assert jobs[0 := job][1..] == jobs[1..];
    } else {
      assert jobs[i := job][1..] == jobs[1..][i - 1 := job];
      TotalUpdate(weight, jobs[1..], i - 1, job);
    }
  }

  function Alive(job: Job): nat { if Active(job) then 1 else 0 }
  function Sweeping(job: Job): nat { if Active(job) then |job.pending| else 0 }
  function Unselected(job: Job): nat { if job.status.Collecting? then 1 else 0 }
  function Undone(job: Job): nat { if job.status.Delivering? then Work(job) else 0 }

  /** The table is closer to its end: fewer active jobs, else fewer pending sources, selections to make, attempts left. */
  predicate TableCloser(after: seq<Job>, before: seq<Job>) {
    || Total(Alive, after) < Total(Alive, before)
    || (Total(Alive, after) == Total(Alive, before)
        && (|| Total(Sweeping, after) < Total(Sweeping, before)
            || (Total(Sweeping, after) == Total(Sweeping, before)
                && (|| Total(Unselected, after) < Total(Unselected, before)
                    || (Total(Unselected, after) == Total(Unselected, before) && Total(Undone, after) < Total(Undone, before))))))
  }

  lemma OneCloser(jobs: seq<Job>, i: nat, job: Job)
    requires i < |jobs| && Active(jobs[i]) && Closer(job, jobs[i])
    ensures TableCloser(jobs[i := job], jobs)
  {
    TotalUpdate(Alive, jobs, i, job);
    TotalUpdate(Sweeping, jobs, i, job);
    TotalUpdate(Unselected, jobs, i, job);
    TotalUpdate(Undone, jobs, i, job);
  }

  lemma NoneCloser(jobs: seq<Job>, i: nat, job: Job)
    requires i < |jobs| && job.status == jobs[i].status && job.pending == jobs[i].pending && Work(job) == Work(jobs[i])
    ensures Total(Alive, jobs[i := job]) == Total(Alive, jobs) && Total(Sweeping, jobs[i := job]) == Total(Sweeping, jobs)
    ensures Total(Unselected, jobs[i := job]) == Total(Unselected, jobs) && Total(Undone, jobs[i := job]) == Total(Undone, jobs)
  {
    TotalUpdate(Alive, jobs, i, job);
    TotalUpdate(Sweeping, jobs, i, job);
    TotalUpdate(Unselected, jobs, i, job);
    TotalUpdate(Undone, jobs, i, job);
  }

  ghost predicate AllSteady(jobs: seq<Job>) {
    forall i :: 0 <= i < |jobs| ==> Steady(jobs[i])
  }

  predicate Busy(jobs: seq<Job>) {
    exists i :: 0 <= i < |jobs| && Active(jobs[i])
  }

  /** At this time no job of the table is deferred any more. */
  ghost predicate Rested(jobs: seq<Job>, now: Time) {
    forall i :: 0 <= i < |jobs| ==> !Deferred(jobs[i], now)
  }

  lemma {:induction false} RestTime(jobs: seq<Job>) returns (at: Time)
    ensures forall now: Time :: now >= at ==> Rested(jobs, now)
  {
    at := 0;
    if jobs != [] {
      var rest := RestTime(jobs[1..]);
      at := Max(rest, jobs[0].retryAfter.GetOr(0));
      forall now: Time | now >= at ensures Rested(jobs, now) {
        assert Rested(jobs[1..], now);
        forall i | 0 <= i < |jobs| ensures !Deferred(jobs[i], now) {
          assert i > 0 ==> jobs[i] == jobs[1..][i - 1];
        }
      }
    }
  }

  /** Whichever jobs go first, a table with an active job and no deferred one has one due. */
  lemma SomeJobIsDue(jobs: seq<Job>, now: Time)
    requires Busy(jobs) && Rested(jobs, now)
    ensures Picked(jobs, now) < |jobs|
  {
    if i :| 0 <= i < |jobs| && Owning(jobs[i]) {
      assert DueNow(jobs[i], true, now);
    } else {
      var k :| 0 <= k < |jobs| && Active(jobs[k]);
      assert DueNow(jobs[k], false, now);
    }
  }

  /** The table after the first n steps of a stream, with no new request. */
  function Ticked(jobs: seq<Job>, worlds: nat -> World, n: nat): seq<Job>
    decreases n
  {
    if n == 0 then jobs else Ticked(Processed(jobs, worlds(0)), Later(worlds), n - 1)
  }

  /** From every point on, a step without a fault comes at or after any given time: `next` names one. */
  ghost predicate RecoversLate(worlds: nat -> World, next: (nat, Time) -> nat) {
    forall k: nat, at: Time :: next(k, at) >= k && worlds(next(k, at)).fault.NoFault? && worlds(next(k, at)).now >= at
  }

  function SoonerLate(next: (nat, Time) -> nat): (nat, Time) -> nat {
    (k: nat, at: Time) => if next(k + 1, at) > 0 then next(k + 1, at) - 1 else 0
  }

  lemma RecoversLateLater(worlds: nat -> World, next: (nat, Time) -> nat)
    requires RecoversLate(worlds, next) && Selects(worlds)
    ensures RecoversLate(Later(worlds), SoonerLate(next)) && Selects(Later(worlds))
  {
    forall k: nat, at: Time
      ensures SoonerLate(next)(k, at) >= k && Later(worlds)(SoonerLate(next)(k, at)).fault.NoFault? && Later(worlds)(SoonerLate(next)(k, at)).now >= at
    {
      assert next(k + 1, at) >= k + 1 && worlds(next(k + 1, at)).fault.NoFault? && worlds(next(k + 1, at)).now >= at;
    }
  }

  /** The step at `d` raises nothing, and finds no job deferred. */
  ghost predicate Serves(jobs: seq<Job>, w: World) {
    w.fault.NoFault? && Rested(jobs, w.now)
  }

  lemma NextServes(jobs: seq<Job>, worlds: nat -> World, next: (nat, Time) -> nat) returns (d: nat)
    requires RecoversLate(worlds, next)
    ensures Serves(jobs, worlds(d))
  {
    var at := RestTime(jobs);
    d := next(0, at);
    assert worlds(next(0, at)).fault.NoFault? && worlds(next(0, at)).now >= at;
  }

  /**
   No new request comes, and steps without a fault keep coming as time goes on. Then every job of the table ends,
   whatever the world returns, whichever jobs have priority, and however often delivery is put off.
   */
  lemma TableEnds(jobs: seq<Job>, worlds: nat -> World, next: (nat, Time) -> nat) returns (n: nat)
    requires AllSteady(jobs) && Selects(worlds) && RecoversLate(worlds, next)
    ensures !Busy(Ticked(jobs, worlds, n))
  {
    var d := NextServes(jobs, worlds, next);
    n := TableEndsFrom(jobs, worlds, next, d);
  }

  lemma {:induction false} TableEndsFrom(jobs: seq<Job>, worlds: nat -> World, next: (nat, Time) -> nat, d: nat) returns (n: nat)
    requires AllSteady(jobs) && Selects(worlds) && RecoversLate(worlds, next) && Serves(jobs, worlds(d))
    ensures !Busy(Ticked(jobs, worlds, n))
    decreases Total(Alive, jobs), Total(Sweeping, jobs), Total(Unselected, jobs), Total(Undone, jobs), d
  {
    n := 0;
    if Busy(jobs) {
      RecoversLateLater(worlds, next);
      var d' := TickServes(jobs, worlds, next, d);
      n := TableEndsFrom(Processed(jobs, worlds(0)), Later(worlds), SoonerLate(next), d');
      n := n + 1;
    }
  }

  /** After one step the table is closer to its end, or it is as it was and the next serving step is closer. */
  lemma TickServes(jobs: seq<Job>, worlds: nat -> World, next: (nat, Time) -> nat, d: nat) returns (d': nat)
    requires AllSteady(jobs) && Busy(jobs) && Selects(worlds) && RecoversLate(worlds, next) && Serves(jobs, worlds(d))
    ensures var after := Processed(jobs, worlds(0));
      && AllSteady(after) && Serves(after, Later(worlds)(d'))
      && (TableCloser(after, jobs)
          || (d' < d && Total(Alive, after) == Total(Alive, jobs) && Total(Sweeping, after) == Total(Sweeping, jobs)
              && Total(Unselected, after) == Total(Unselected, jobs) && Total(Undone, after) == Total(Undone, jobs)))
  {
    var w := worlds(0);
    var i := Picked(jobs, w.now);
    if i == |jobs| {
      if d == 0 { SomeJobIsDue(jobs, w.now); }
      d' := d - 1;
    } else {
      JobStepIsProgressIff(jobs[i], w);
      if Stuck(jobs[i], w) {
        StuckChangesNothing(jobs[i], w);
        NoneCloser(jobs, i, JobStep(jobs[i], w));
        d' := d - 1;
      } else {
        OneCloser(jobs, i, JobStep(jobs[i], w));
        RecoversLateLater(worlds, next);
        d' := NextServes(Processed(jobs, w), Later(worlds), SoonerLate(next));
      }
    }
  }

  /** Every table the program reaches is steady, as long as selections hold no update twice. */
  lemma {:induction false} RunIsSteady(calls: seq<Call>)
    requires forall n :: 0 <= n < |calls| && calls[n].Tick? ==> NoDuplicates(calls[n].w.chosen)
    ensures AllSteady(Run(calls))
  {
    if calls != [] {
      var init, last := calls[..|calls| - 1], calls[|calls| - 1];
      RunIsSteady(init);
      if last.Tick? {
        var i := Picked(Run(init), last.w.now);
        if i < |Run(init)| { JobStepIsProgressIff(Run(init)[i], last.w); }
      }
    }
  }

  /** So after any run of steps and requests every job ends, once no new request comes. */
  lemma EveryJobEnds(calls: seq<Call>, worlds: nat -> World, next: (nat, Time) -> nat) returns (n: nat)
    requires forall k :: 0 <= k < |calls| && calls[k].Tick? ==> NoDuplicates(calls[k].w.chosen)
    requires Selects(worlds) && RecoversLate(worlds, next)
    ensures !Busy(Ticked(Run(calls), worlds, n))
  {
    RunIsSteady(calls);
    n := TableEnds(Run(calls), worlds, next);
  }

  // ---------------------------------------------------------------- a job that never ends

  const SWEPT_ONE := World(5, {"alpha"}, ["1"], Returned([], false), ["1"], Usable, true, NoFault)

  /** Delivering keeps raising. */
  const OUTAGE := SWEPT_ONE.(fault := DeliveringFails)

  function Outage(n: nat): seq<Call> {
    if n == 0 then [Enqueue("j", 3, "", ["alpha"]), Enqueue("k", 3, "", ["alpha"]), Tick(SWEPT_ONE)] else Outage(n - 1) + [Tick(OUTAGE)]
  }

  predicate Undelivered(jobs: seq<Job>) {
    && |jobs| == 2 && Active(jobs[0]) && jobs[0].localLoaded && jobs[0].pending == [] && jobs[0].retryAfter.None?
    && jobs[0].sourceFilter == "" && jobs[0].delivered == [] && jobs[0].attempts == map[]
    && (jobs[0].status.Delivering? ==> jobs[0].selected == ["1"])
    && jobs[1] == NewJob("k", 3, "", ["alpha"])
  }

  lemma OutageChangesNothing(jobs: seq<Job>)
    requires Undelivered(jobs)
    ensures Picked(jobs, 5) == 0 && Raises(jobs[0], OUTAGE)
    ensures Undelivered(Processed(jobs, OUTAGE))
  {
    var ready := Chosen(jobs[0], ["1"]);
    assert Remaining(ready.selected, ready.delivered) == ["1"];
    assert !Owning(jobs[0]) && !Owning(jobs[1]);
  }

  lemma OutageBegins()
    ensures Undelivered(Run(Outage(0)))
  {
    var calls := Outage(0);
    assert calls[..3] == calls && calls[..2][..1] == calls[..1] && calls[..1][..0] == [] && calls[..2] == [calls[0], calls[1]] && calls[..1] == [calls[0]];
    var j, k := NewJob("j", 3, "", ["alpha"]), NewJob("k", 3, "", ["alpha"]);
    assert Run(calls[..1]) == [j] && Run(calls[..2]) == [j, k];
    assert !Owning(j) && !Owning(k) && Picked([j, k], 5) == 0;
    assert ["alpha"][1..] == [];
  }

  /**
   While delivering keeps raising, a reachable job stays due for ever with the same work: no attempt is counted and
   no delay is set. The job behind it is never worked on.
   */
  lemma {:induction false} OutageNeverEnds(n: nat)
    ensures Undelivered(Run(Outage(n)))
  {
    if n == 0 {
      OutageBegins();
    } else {
      OutageNeverEnds(n - 1);
      assert Outage(n)[..|Outage(n)| - 1] == Outage(n - 1);
      OutageChangesNothing(Run(Outage(n - 1)));
    }
  }
}
