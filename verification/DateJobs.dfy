/**
 Dated bundle requests as a resumable job machine.

 Jobs form an insertion-ordered dictionary. One step works on one job: it sweeps the next pending source,
 or selects and delivers the next undelivered update, or closes the job. What the collector, the archive,
 the selection and the delivery return in a step are the fields of `World`. `swept` is a history field: the
 handles the current generation was asked to sweep.
 */
module DateJobs {
  import opened Common

  datatype Status = Collecting | Delivering | Finished | Incomplete | TranslationPending

  datatype Coverage = Covered | Partial | Failed(reason: string) | Disabled

  datatype Job = Job(
    id: string, end: Time, sourceFilter: string, status: Status, pending: seq<string>, coverage: map<string, Coverage>,
    observed: seq<string>, selected: seq<string>, delivered: seq<string>, attempts: map<string, nat>,
    retryAfter: Option<Time>, generation: nat, localLoaded: bool, provisional: bool, swept: seq<string>)

  /** A collection: ids found and whether the collector noted errors; or a failure, the ids found all the same, and whether the search for more worked. */
  datatype Collected = Returned(ids: seq<string>, errors: bool) | Raised(reason: string, found: seq<string>, recovered: bool)

  /** The stored update behind an id: gone, of a source that is not allowed (with its author), or usable. */
  datatype Lookup = Missing | Foreign(author: string) | Usable

  /**
   Where a step raises, if it does: while local updates are loaded, some of them noted; before the selection; when
   the selection is announced; or while one update is looked up and delivered.
   */
  datatype Fault = NoFault | LoadingFails(noted: seq<string>) | ChoosingFails | AnnouncingFails | DeliveringFails

  datatype World = World(
    now: Time, enabled: set<string>, local: seq<string>, collected: Collected, chosen: seq<string>,
    lookup: Lookup, accepted: bool, fault: Fault)

  const MINUTE := 60 * 1_000_000

  // ---------------------------------------------------------------- one job

  predicate Active(job: Job) {
    job.status.Collecting? || job.status.Delivering?
  }

  predicate Deferred(job: Job, now: Time) {
    job.retryAfter.Some? && job.retryAfter.value > now
  }

  function WithNew(known: seq<string>, ids: seq<string>): seq<string> {
    if ids == [] then known
    else
      var rest := WithNew(known, ids[..|ids| - 1]);
      if ids[|ids| - 1] in rest then rest else rest + [ids[|ids| - 1]]
  }

  function Remaining(selected: seq<string>, delivered: seq<string>): seq<string> {
    if selected == [] then []
    else if selected[0] in delivered then Remaining(selected[1..], delivered)
    else [selected[0]] + Remaining(selected[1..], delivered)
  }

  /** list.remove: drops the first occurrence. */
  function Without(s: seq<string>, id: string): seq<string> {
    if s == [] then [] else if s[0] == id then s[1..] else [s[0]] + Without(s[1..], id)
  }

  function Pow2(n: nat): nat {
    if n == 0 then 1 else 2 * Pow2(n - 1)
  }

  function Attempts(attempts: map<string, nat>, id: string): nat {
    if id in attempts then attempts[id] else 0
  }

  function Loaded(job: Job, local: seq<string>): Job {
    if job.localLoaded then job else job.(observed := WithNew(job.observed, local), localLoaded := true)
  }

  /** Sweeps the first pending source. */
  function Swept(job: Job, w: World): Job
    requires job.pending != []
  {
    var handle := job.pending[0];
    var rest := job.(pending := job.pending[1..]);
    if handle !in w.enabled then rest.(coverage := job.coverage[handle := Disabled])
    else
      match w.collected
      case Returned(ids, errors) =>
        rest.(observed := WithNew(job.observed, ids), coverage := job.coverage[handle := if errors then Partial else Covered])
      case Raised(reason, found, recovered) =>
        rest.(observed := WithNew(job.observed, found), coverage := job.coverage[handle := if recovered then Partial else Failed(reason)])
  }

  function Chosen(job: Job, chosen: seq<string>): Job {
    if job.status.Collecting? then job.(selected := chosen, status := Delivering) else job
  }

  /** Delivers, retries, drops or gives up on the first remaining update. */
  function Delivered(job: Job, w: World): Job
    requires Remaining(job.selected, job.delivered) != []
  {
    var id := Remaining(job.selected, job.delivered)[0];
    match w.lookup
    case Missing => job.(status := Incomplete)
    case Foreign(author) => job.(selected := Without(job.selected, id), coverage := job.coverage[author := Disabled])
    case Usable =>
      if w.accepted then job.(delivered := job.delivered + [id], retryAfter := None)
      else
        var attempts := Attempts(job.attempts, id) + 1;
        job.(attempts := job.attempts[id := attempts],
             retryAfter := Some(w.now + Min(30, Pow2(attempts)) * MINUTE),
             status := if attempts >= 3 then TranslationPending else job.status)
  }

  predicate FullyCovered(job: Job) {
    job.coverage != map[] && forall h :: h in job.coverage ==> job.coverage[h] == Covered
  }

  function ClosedOut(job: Job, now: Time): Job {
    job.(provisional := job.end > now, status := if FullyCovered(job) && job.end <= now then Finished else Incomplete)
  }

  /** The step raises: the job keeps what had been done to it, and the wake ends. */
  predicate Raises(job: Job, w: World) {
    match w.fault
    case NoFault => false
    case LoadingFails(noted) => !job.localLoaded
    case ChoosingFails => job.pending == [] && job.status.Collecting?
    case AnnouncingFails => job.pending == [] && job.status.Collecting?
    case DeliveringFails =>
      var ready := Chosen(Loaded(job, w.local), w.chosen);
      job.pending == [] && Remaining(ready.selected, ready.delivered) != []
  }

  function JobStep(job: Job, w: World): Job {
    if w.fault.LoadingFails? && Raises(job, w) then job.(observed := WithNew(job.observed, w.fault.noted))
    else
      var loaded := Loaded(job, w.local);
      if loaded.pending != [] then Swept(loaded, w)
      else if w.fault.ChoosingFails? && Raises(job, w) then loaded
      else
        var ready := Chosen(loaded, w.chosen);
        if (w.fault.AnnouncingFails? || w.fault.DeliveringFails?) && Raises(job, w) then ready
        else if Remaining(ready.selected, ready.delivered) != [] then Delivered(ready, w)
        else ClosedOut(ready, w.now)
  }

  // ---------------------------------------------------------------- the job table

  predicate Owning(job: Job) {
    job.sourceFilter != "" && Active(job)
  }

  predicate DueNow(job: Job, ownersOnly: bool, now: Time) {
    Active(job) && !Deferred(job, now) && (ownersOnly ==> Owning(job))
  }

  /** The first job that is due: of the active source-scoped jobs when there are any, else of all. */
  function Due(jobs: seq<Job>, ownersOnly: bool, now: Time): (i: nat)
    ensures i <= |jobs|
    ensures i < |jobs| ==> DueNow(jobs[i], ownersOnly, now)
    ensures forall k :: 0 <= k < i ==> !DueNow(jobs[k], ownersOnly, now)
  {
    if jobs == [] then 0 else if DueNow(jobs[0], ownersOnly, now) then 0 else 1 + Due(jobs[1..], ownersOnly, now)
  }

  function Picked(jobs: seq<Job>, now: Time): nat {
    Due(jobs, exists i :: 0 <= i < |jobs| && Owning(jobs[i]), now)
  }

  function Processed(jobs: seq<Job>, w: World): seq<Job> {
    var i := Picked(jobs, w.now);
    if i < |jobs| then jobs[i := JobStep(jobs[i], w)] else jobs
  }

  function IndexOf(jobs: seq<Job>, id: string): (i: nat)
    ensures i <= |jobs|
    ensures i < |jobs| ==> jobs[i].id == id
    ensures forall k :: 0 <= k < i ==> jobs[k].id != id
  {
    if jobs == [] then 0 else if jobs[0].id == id then 0 else 1 + IndexOf(jobs[1..], id)
  }

  function NewJob(id: string, end: Time, filter: string, handles: seq<string>): Job {
    Job(id, end, filter, Collecting, handles, map[], [], [], [], map[], None, 1, false, false, handles)
  }

  /** A repeated finished request starts a new generation; what was delivered, and the attempts made, are kept. */
  function Renewed(job: Job, handles: seq<string>): Job {
    if Active(job) then job
    else
      job.(generation := job.generation + 1, pending := handles, swept := handles, coverage := map[], observed := [], selected := [],
           localLoaded := false, status := Collecting, retryAfter := None)
  }

  /** `id` is the digest of the request: the same day, topic and source give the same id. */
  function Enqueued(jobs: seq<Job>, id: string, end: Time, filter: string, handles: seq<string>): seq<Job> {
    var i := IndexOf(jobs, id);
    if i < |jobs| then jobs[i := Renewed(jobs[i], handles)] else jobs + [NewJob(id, end, filter, handles)]
  }

  // ---------------------------------------------------------------- the runtime

  class Requests {
    var jobs: seq<Job>

    constructor ()
      ensures jobs == []
    {
      jobs := [];
    }

    method Enqueue(id: string, end: Time, filter: string, handles: seq<string>)
      modifies this
      ensures jobs == Enqueued(old(jobs), id, end, filter, handles)
    {
      var i := IndexOf(jobs, id);
      if i < |jobs| {
        var job := jobs[i];
        if job.status.Finished? || job.status.Incomplete? || job.status.TranslationPending? {
          job := job.(generation := job.generation + 1, pending := handles, swept := handles);
          job := job.(coverage := map[], observed := [], selected := [], localLoaded := false);
          job := job.(status := Collecting, retryAfter := None);
          jobs := jobs[i := job];
        }
      } else {
        jobs := jobs + [NewJob(id, end, filter, handles)];
      }
    }

    method ProcessStep(w: World) returns (raised: bool)
      modifies this
      ensures jobs == Processed(old(jobs), w)
      ensures raised <==> Picked(old(jobs), w.now) < |old(jobs)| && Raises(old(jobs)[Picked(old(jobs), w.now)], w)
    {
      var owners := exists i :: 0 <= i < |jobs| && Owning(jobs[i]);
      var i := 0;
      while i < |jobs| && !DueNow(jobs[i], owners, w.now)
        invariant 0 <= i <= |jobs|
        invariant Due(jobs, owners, w.now) == i + Due(jobs[i..], owners, w.now)
      {
        assert jobs[i..][1..] == jobs[i + 1..];
        i := i + 1;
      }
      raised := false;
      if i < |jobs| {
        var job;
        job, raised := StepJob(jobs[i], w);
        jobs := jobs[i := job];
      }
    }
  }

  /** One bounded step on a job, and whether it raised. */
  method StepJob(start: Job, w: World) returns (job: Job, raised: bool)
    ensures job == JobStep(start, w) && raised == Raises(start, w)
  {
    job, raised := start, false;
    if !job.localLoaded {
      var observed := AppendNew(job.observed, if w.fault.LoadingFails? then w.fault.noted else w.local);
      job := job.(observed := observed);
      if w.fault.LoadingFails? {
        return job, true;
      }
      job := job.(localLoaded := true);
    }
    if job.pending != [] {
      job := Sweep(job, w);
      return;
    }
    if job.status.Collecting? {
      if w.fault.ChoosingFails? {
        return job, true;
      }
      job := job.(selected := w.chosen, status := Delivering);
      if w.fault.AnnouncingFails? {
        return job, true;
      }
    }
    var remaining := ListRemaining(job.selected, job.delivered);
    if remaining != [] {
      if w.fault.DeliveringFails? {
        return job, true;
      }
      job := Deliver(job, remaining[0], w);
      return;
    }
    job := CloseOut(job, w.now);
  }

  method CloseOut(start: Job, now: Time) returns (job: Job)
    ensures job == ClosedOut(start, now)
  {
    job := start;
    var open := job.end > now;
    var covered := job.coverage != map[] && forall h :: h in job.coverage ==> job.coverage[h] == Covered;
    job := job.(provisional := open, status := if covered && !open then Finished else Incomplete);
  }

  method Sweep(start: Job, w: World) returns (job: Job)
    requires start.pending != []
    ensures job == Swept(start, w)
  {
    job := start;
    var handle := job.pending[0];
    if handle !in w.enabled {
      job := job.(coverage := job.coverage[handle := Disabled]);
    } else {
      match w.collected {
        case Returned(ids, errors) =>
          var observed := AppendNew(job.observed, ids);
          job := job.(observed := observed, coverage := job.coverage[handle := if errors then Partial else Covered]);
        case Raised(reason, found, recovered) =>
          var observed := AppendNew(job.observed, found);
          job := job.(observed := observed, coverage := job.coverage[handle := if recovered then Partial else Failed(reason)]);
      }
    }
    job := job.(pending := job.pending[1..]);
  }

  method Deliver(start: Job, id: string, w: World) returns (job: Job)
    requires Remaining(start.selected, start.delivered) != [] && id == Remaining(start.selected, start.delivered)[0]
    ensures job == Delivered(start, w)
  {
    job := start;
    match w.lookup {
      case Missing => job := job.(status := Incomplete);
      case Foreign(author) => job := job.(selected := Without(job.selected, id), coverage := job.coverage[author := Disabled]);
      case Usable =>
        if w.accepted {
          job := job.(delivered := job.delivered + [id], retryAfter := None);
        } else {
          var attempts := (if id in job.attempts then job.attempts[id] else 0) + 1;
          job := job.(attempts := job.attempts[id := attempts], retryAfter := Some(w.now + Min(30, Pow2(attempts)) * MINUTE));
          if attempts >= 3 {
            job := job.(status := TranslationPending);
          }
        }
    }
  }

  method AppendNew(known: seq<string>, ids: seq<string>) returns (all: seq<string>)
    ensures all == WithNew(known, ids)
  {
    all := known;
    for i := 0 to |ids|
      invariant all == WithNew(known, ids[..i])
    {
      assert ids[..i + 1][..i] == ids[..i];
      if ids[i] !in all {
        all := all + [ids[i]];
      }
    }
    assert ids[..|ids|] == ids;
  }

  method ListRemaining(selected: seq<string>, delivered: seq<string>) returns (remaining: seq<string>)
    ensures remaining == Remaining(selected, delivered)
  {
    remaining := [];
    for i := 0 to |selected|
      invariant remaining + Remaining(selected[i..], delivered) == Remaining(selected, delivered)
    {
      assert selected[i..][1..] == selected[i + 1..];
      if selected[i] !in delivered {
        remaining := remaining + [selected[i]];
      }
    }
  }
}
