/** What every run of the final-edit store keeps. No assumption is made on the clock. */
module FinalEditProof {
  import opened Common
  import opened FinalEdit

  // ---------------------------------------------------------------- the invariant

  ghost predicate OneOpenPerDraft(sessions: map<SessionId, Session>) {
    forall i, j :: i in sessions && j in sessions && Open(sessions[i]) && Open(sessions[j]) && sessions[i].draft == sessions[j].draft ==> i == j
  }

  /** The candidate body is stored exactly while it awaits confirmation, and matches its fingerprint. */
  predicate SessionSound(id: SessionId, s: Session) {
    && id == SessionId(s.draft, s.created)
    && (s.body.Some? <==> s.status.Awaiting?)
    && (s.status.Awaiting? ==> BodyChecks(s))
    && (s.candidate.Some? <==> s.status.Awaiting? || s.status.Confirmed?)
  }

  ghost predicate SessionsSound(sessions: map<SessionId, Session>) {
    OneOpenPerDraft(sessions) && forall i :: i in sessions ==> SessionSound(i, sessions[i])
  }

  predicate RecordSound(r: Record) {
    r.id == RecordId(r.draft, Digest(r.body), r.confirmedAt) && (r.active ==> !r.revoked) && r.body != ""
  }

  ghost predicate OneActivePerDraft(records: seq<Record>) {
    forall i, j :: 0 <= i < j < |records| && records[i].active && records[j].active ==> records[i].draft != records[j].draft
  }

  ghost predicate UniqueRecords(records: seq<Record>) {
    forall i, j :: 0 <= i < j < |records| ==> records[i].id != records[j].id
  }

  /** The record at `j` is what the record at `i` supersedes. */
  predicate Supersedes(records: seq<Record>, i: nat, j: nat)
    requires i < |records| && j < |records|
  {
    records[i].supersedes == Some(records[j].id)
  }

  /** Superseding points to an earlier record of the same draft, which is no longer active, and never twice to the same. */
  ghost predicate ChainSound(records: seq<Record>) {
    && (forall i :: 0 <= i < |records| && records[i].supersedes.Some? ==>
          exists j :: 0 <= j < i && Supersedes(records, i, j) && records[j].draft == records[i].draft && !records[j].active)
    && (forall i, k :: 0 <= i < k < |records| && records[i].supersedes.Some? ==> records[k].supersedes != records[i].supersedes)
  }

  function SessionOf(r: Record): SessionId {
    SessionId(r.draft, r.created)
  }

  /** Records and confirmed sessions match one to one. */
  ghost predicate Matched(t: Tables) {
    && (forall i :: 0 <= i < |t.records| ==>
          SessionOf(t.records[i]) in t.sessions && t.sessions[SessionOf(t.records[i])].status.Confirmed?
          && t.sessions[SessionOf(t.records[i])].candidate == Some(Digest(t.records[i].body)))
    && (forall i, j :: 0 <= i < j < |t.records| ==> SessionOf(t.records[i]) != SessionOf(t.records[j]))
    && (forall s :: s in t.sessions && t.sessions[s].status.Confirmed? ==> exists i :: 0 <= i < |t.records| && SessionOf(t.records[i]) == s)
  }

  ghost predicate RecordsSound(records: seq<Record>) {
    (forall i :: 0 <= i < |records| ==> RecordSound(records[i])) && OneActivePerDraft(records) && UniqueRecords(records) && ChainSound(records)
  }

  ghost predicate Invariant(t: Tables) {
    SessionsSound(t.sessions) && RecordsSound(t.records) && Matched(t)
  }

  lemma OneRowPerId(records: seq<Record>, i: nat, j: nat)
    requires UniqueRecords(records) && i < |records| && j < |records| && records[i].id == records[j].id
    ensures i == j
  {
  }

  lemma OneActiveRow(records: seq<Record>, i: nat, j: nat)
    requires OneActivePerDraft(records) && i < |records| && j < |records|
    requires records[i].active && records[j].active && records[i].draft == records[j].draft
    ensures i == j
  {
  }

  // ---------------------------------------------------------------- sessions

  lemma ExpiringKeeps(t: Tables, now: Time)
    requires Invariant(t)
    ensures Invariant(ExpireStale(t, now))
  {
    SameConfirmed(t, ExpireStale(t, now));
    ExpiringIsSound(t, now);
  }

  lemma ExpiringIsSound(t: Tables, now: Time)
    requires SessionsSound(t.sessions)
    ensures SessionsSound(ExpireStale(t, now).sessions)
  {
    var after := ExpireStale(t, now).sessions;
    forall i, j | i in after && j in after && i != j && Open(after[i]) && Open(after[j]) ensures after[i].draft != after[j].draft {
      assert after[i] == t.sessions[i] && after[j] == t.sessions[j];
    }
  }

  lemma CancellingKeeps(t: Tables, draft: string)
    requires Invariant(t)
    ensures Invariant(CancelOpen(t, draft))
    ensures forall i :: i in CancelOpen(t, draft).sessions && CancelOpen(t, draft).sessions[i].draft == draft ==> !Open(CancelOpen(t, draft).sessions[i])
  {
    SameConfirmed(t, CancelOpen(t, draft));
    CancellingIsSound(t, draft);
  }

  lemma CancellingIsSound(t: Tables, draft: string)
    requires SessionsSound(t.sessions)
    ensures SessionsSound(CancelOpen(t, draft).sessions)
  {
    var after := CancelOpen(t, draft).sessions;
    forall i, j | i in after && j in after && i != j && Open(after[i]) && Open(after[j]) ensures after[i].draft != after[j].draft {
      assert after[i] == t.sessions[i] && after[j] == t.sessions[j];
    }
  }

  /** Confirmed sessions and records unchanged: the matching stands. */
  lemma SameConfirmed(t: Tables, next: Tables)
    requires Matched(t) && next.records == t.records
    requires forall s :: s in t.sessions && t.sessions[s].status.Confirmed? ==> s in next.sessions && next.sessions[s] == t.sessions[s]
    requires forall s :: s in next.sessions && next.sessions[s].status.Confirmed? ==> s in t.sessions && t.sessions[s].status.Confirmed?
    ensures Matched(next)
  {
  }

  /** One session replaced by a sound one that is not confirmed, and open only if it was. */
  lemma SessionUpdateKeeps(t: Tables, id: SessionId, s: Session)
    requires Invariant(t) && id in t.sessions && !t.sessions[id].status.Confirmed? && !s.status.Confirmed?
    requires SessionSound(id, s) && (Open(s) ==> Open(t.sessions[id])) && s.draft == t.sessions[id].draft
    ensures Invariant(t.(sessions := t.sessions[id := s]))
  {
    SoundUpdate(t.sessions, id, s);
    SameConfirmed(t, t.(sessions := t.sessions[id := s]));
  }

  lemma SoundUpdate(sessions: map<SessionId, Session>, id: SessionId, s: Session)
    requires SessionsSound(sessions) && SessionSound(id, s)
    requires Open(s) ==> forall i :: i in sessions && i != id && Open(sessions[i]) ==> sessions[i].draft != s.draft
    ensures SessionsSound(sessions[id := s])
  {
    var after := sessions[id := s];
    forall i, j | i in after && j in after && i != j && Open(after[i]) && Open(after[j]) ensures after[i].draft != after[j].draft {
      assert i != id ==> after[i] == sessions[i];
      assert j != id ==> after[j] == sessions[j];
    }
  }

  lemma StartingKeeps(t: Tables, draft: string, chat: string, draftPrint: string, ttl: Time, now: Time)
    requires Invariant(t)
    ensures Invariant(Started(t, draft, chat, draftPrint, ttl, now))
  {
    ExpiringKeeps(t, now);
    CancellingKeeps(ExpireStale(t, now), draft);
    var cleared := CancelOpen(ExpireStale(t, now), draft);
    if SessionId(draft, now) !in cleared.sessions {
      OpeningKeeps(cleared, SessionId(draft, now), Session(draft, chat, draftPrint, 0, None, None, Pending, now, now + ttl));
    }
  }

  /** A new session for a draft without an open one. */
  lemma OpeningKeeps(t: Tables, id: SessionId, s: Session)
    requires Invariant(t) && id !in t.sessions && SessionSound(id, s) && s.status.Pending?
    requires forall i :: i in t.sessions && t.sessions[i].draft == s.draft ==> !Open(t.sessions[i])
    ensures Invariant(t.(sessions := t.sessions[id := s]))
  {
    SoundUpdate(t.sessions, id, s);
    SameConfirmed(t, t.(sessions := t.sessions[id := s]));
  }

  // ---------------------------------------------------------------- records

  lemma {:induction false} LatestActiveIs(records: seq<Record>, draft: string)
    ensures LatestActive(records, draft).Some? ==>
              exists i :: 0 <= i < |records| && records[i].id == LatestActive(records, draft).value && records[i].draft == draft
                          && records[i].active && !records[i].revoked
    ensures LatestActive(records, draft).None? ==> forall i :: 0 <= i < |records| && records[i].draft == draft ==> !records[i].active || records[i].revoked
  {
    if records != [] {
      var init := records[..|records| - 1];
      LatestActiveIs(init, draft);
      if LatestActive(init, draft).Some? {
        var i :| 0 <= i < |init| && init[i].id == LatestActive(init, draft).value && init[i].draft == draft && init[i].active && !init[i].revoked;
        assert records[i] == init[i];
      }
    }
  }

  /** Deactivating the previous record leaves no active record of the draft. */
  lemma PreviousWasTheOnlyOne(records: seq<Record>, draft: string)
    requires RecordsSound(records)
    ensures var after := Deactivated(records, LatestActive(records, draft));
            forall i :: 0 <= i < |after| && after[i].draft == draft ==> !after[i].active
  {
    LatestActiveIs(records, draft);
    var previous := LatestActive(records, draft);
    if previous.Some? {
      var p :| 0 <= p < |records| && records[p].id == previous.value && records[p].draft == draft && records[p].active;
      forall i | 0 <= i < |records| && records[i].draft == draft && records[i].active ensures i == p {
        OneActiveRow(records, i, p);
      }
    }
  }

  lemma DeactivatingKeeps(records: seq<Record>, id: Option<RecordId>)
    requires RecordsSound(records)
    ensures RecordsSound(Deactivated(records, id))
  {
    var after := Deactivated(records, id);
    ChainSurvives(records, after);
  }

  /** Changing flags so that nothing becomes active keeps the chain. */
  lemma ChainSurvives(records: seq<Record>, after: seq<Record>)
    requires ChainSound(records) && |after| == |records|
    requires forall i :: 0 <= i < |records| ==> after[i].id == records[i].id && after[i].draft == records[i].draft
                                                && after[i].supersedes == records[i].supersedes && (after[i].active ==> records[i].active)
    ensures ChainSound(after)
  {
    forall i | 0 <= i < |after| && after[i].supersedes.Some?
      ensures exists j :: 0 <= j < i && Supersedes(after, i, j) && after[j].draft == after[i].draft && !after[j].active
    {
      var j :| 0 <= j < i && Supersedes(records, i, j) && records[j].draft == records[i].draft && !records[j].active;
      assert Supersedes(after, i, j);
    }
  }

  lemma AppendingKeeps(records: seq<Record>, r: Record)
    requires RecordsSound(records) && RecordSound(r) && !HasRecord(records, r.id)
    requires var previous := LatestActive(records, r.draft); r.supersedes == previous
    ensures RecordsSound(Deactivated(records, LatestActive(records, r.draft)) + [r])
  {
    var previous := LatestActive(records, r.draft);
    var quiet := Deactivated(records, previous);
    DeactivatingKeeps(records, previous);
    PreviousWasTheOnlyOne(records, r.draft);
    assert forall i :: 0 <= i < |quiet| ==> quiet[i].id == records[i].id;
    AppendingKeepsChain(records, r);
    AppendedRows(quiet, r);
  }

  lemma AppendedRows(quiet: seq<Record>, r: Record)
    requires (forall i :: 0 <= i < |quiet| ==> RecordSound(quiet[i])) && OneActivePerDraft(quiet) && UniqueRecords(quiet) && RecordSound(r)
    requires forall i :: 0 <= i < |quiet| ==> quiet[i].id != r.id && (quiet[i].draft == r.draft ==> !quiet[i].active)
    ensures (forall i :: 0 <= i < |quiet + [r]| ==> RecordSound((quiet + [r])[i])) && OneActivePerDraft(quiet + [r]) && UniqueRecords(quiet + [r])
  {
  }

  lemma AppendingKeepsChain(records: seq<Record>, r: Record)
    requires RecordsSound(records) && r.supersedes == LatestActive(records, r.draft)
    ensures ChainSound(Deactivated(records, LatestActive(records, r.draft)) + [r])
  {
    var previous := LatestActive(records, r.draft);
    var quiet := Deactivated(records, previous);
    DeactivatingKeeps(records, previous);
    LatestActiveIs(records, r.draft);
    if previous.Some? {
      var p :| 0 <= p < |records| && records[p].id == previous.value && records[p].draft == r.draft && records[p].active;
      assert quiet[p].id == previous.value && !quiet[p].active;
      forall i | 0 <= i < |quiet| ensures quiet[i].supersedes != previous {
        NotSupersededWhileActive(records, i, p);
      }
      AppendedChain(quiet, r, p);
    } else {
      AppendedChain(quiet, r, 0);
    }
  }

  lemma NotSupersededWhileActive(records: seq<Record>, i: nat, p: nat)
    requires ChainSound(records) && UniqueRecords(records) && i < |records| && p < |records| && records[p].active
    ensures records[i].supersedes != Some(records[p].id)
  {
    if records[i].supersedes.Some? {
      var j :| 0 <= j < i && Supersedes(records, i, j) && !records[j].active;
      assert j != p && records[j].id != records[p].id;
    }
  }

  lemma AppendedChain(quiet: seq<Record>, r: Record, p: nat)
    requires ChainSound(quiet)
    requires r.supersedes.Some? ==> p < |quiet| && r.supersedes == Some(quiet[p].id) && quiet[p].draft == r.draft && !quiet[p].active
    requires r.supersedes.Some? ==> forall i :: 0 <= i < |quiet| ==> quiet[i].supersedes != r.supersedes
    ensures ChainSound(quiet + [r])
  {
    var longer := quiet + [r];
    forall i | 0 <= i < |longer| && longer[i].supersedes.Some?
      ensures exists j :: 0 <= j < i && Supersedes(longer, i, j) && longer[j].draft == longer[i].draft && !longer[j].active
    {
      if i < |quiet| {
        var j :| 0 <= j < i && Supersedes(quiet, i, j) && quiet[j].draft == quiet[i].draft && !quiet[j].active;
        assert Supersedes(longer, i, j);
      } else {
        assert Supersedes(longer, i, p);
      }
    }
  }

  lemma ConfirmingKeeps(t: Tables, id: SessionId, eligibility: string, now: Time)
    requires Invariant(t) && id in t.sessions && t.sessions[id].status.Awaiting?
    ensures Invariant(Confirmation(t, id, eligibility, now))
  {
    assert SessionSound(id, t.sessions[id]);
    var s, next := t.sessions[id], Confirmation(t, id, eligibility, now);
    if next != t {
      var quiet, r := Deactivated(t.records, LatestActive(t.records, s.draft)), next.records[|t.records|];
      AppendingKeeps(t.records, r);
      assert next.records == quiet + [r];
      ConfirmingMatches(t, next, id, quiet, r);
      ConfirmedSessionsSound(t.sessions, id, next.sessions[id]);
    }
  }

  lemma ConfirmedSessionsSound(sessions: map<SessionId, Session>, id: SessionId, s: Session)
    requires SessionsSound(sessions) && id in sessions && SessionSound(id, s) && !Open(s)
    ensures SessionsSound(sessions[id := s])
  {
  }

  lemma ConfirmingMatches(t: Tables, next: Tables, id: SessionId, quiet: seq<Record>, r: Record)
    requires Matched(t) && id in t.sessions && t.sessions[id].status.Awaiting? && SessionOf(r) == id
    requires |quiet| == |t.records| && forall i :: 0 <= i < |quiet| ==> SessionOf(quiet[i]) == SessionOf(t.records[i]) && quiet[i].body == t.records[i].body
    requires next.records == quiet + [r]
    requires next.sessions.Keys == t.sessions.Keys && forall k :: k in t.sessions && k != id ==> next.sessions[k] == t.sessions[k]
    requires next.sessions[id].status.Confirmed? && next.sessions[id].candidate == Some(Digest(r.body))
    ensures Matched(next)
  {
    assert forall i :: 0 <= i < |quiet| ==> next.records[i] == quiet[i] && SessionOf(t.records[i]) != id;
    assert next.records[|quiet|] == r;
    forall k | k in next.sessions && next.sessions[k].status.Confirmed?
      ensures exists i :: 0 <= i < |next.records| && SessionOf(next.records[i]) == k
    {
      ConfirmedHasRecord(t, next, id, k);
    }
  }

  lemma ConfirmedHasRecord(t: Tables, next: Tables, id: SessionId, k: SessionId)
    requires Matched(t) && k in next.sessions && next.sessions[k].status.Confirmed?
    requires k != id ==> k in t.sessions && t.sessions[k].status.Confirmed?
    requires |next.records| == |t.records| + 1 && SessionOf(next.records[|t.records|]) == id
    requires forall i :: 0 <= i < |t.records| ==> SessionOf(next.records[i]) == SessionOf(t.records[i])
    ensures exists i :: 0 <= i < |next.records| && SessionOf(next.records[i]) == k
  {
    if k != id {
      var i :| 0 <= i < |t.records| && SessionOf(t.records[i]) == k;
      assert SessionOf(next.records[i]) == k;
    }
  }

  lemma FlaggingKeeps(t: Tables, next: Tables)
    requires Invariant(t) && next.sessions == t.sessions && |next.records| == |t.records|
    requires forall i :: 0 <= i < |t.records| ==>
               var x, y := t.records[i], next.records[i];
               y == x.(active := y.active, revoked := y.revoked, eligibility := y.eligibility)
               && (y.active ==> x.active && !y.revoked)
    ensures Invariant(next)
  {
    ChainSurvives(t.records, next.records);
    assert forall i :: 0 <= i < |t.records| ==> SessionOf(next.records[i]) == SessionOf(t.records[i]);
  }

  // ---------------------------------------------------------------- runs

  lemma ReceivingKeeps(t: Tables, id: SessionId, body: string, draftPrint: string, chat: string, now: Time)
    requires Invariant(t)
    ensures Invariant(Received(t, id, body, draftPrint, chat, now))
  {
    ExpiringKeeps(t, now);
    var u := ExpireStale(t, now);
    if MayReceive(u, id, body, draftPrint, chat) {
      SessionUpdateKeeps(u, id, u.sessions[id].(body := Some(body), candidate := Some(Digest(body)), status := Awaiting));
    }
  }

  lemma ReplacingKeeps(t: Tables, id: SessionId, ttl: Time, now: Time)
    requires Invariant(t)
    ensures Invariant(Replaced(t, id, ttl, now))
  {
    ExpiringKeeps(t, now);
    var u := ExpireStale(t, now);
    if id in u.sessions && u.sessions[id].status.Awaiting? {
      SessionUpdateKeeps(u, id, ClosedAs(u.sessions[id], Pending).(prompt := 0, expires := now + ttl));
    }
  }

  lemma StepKeeps(t: Tables, call: Call)
    requires Invariant(t)
    ensures Invariant(Step(t, call))
  {
    match call
    case Start(draft, chat, draftPrint, ttl, now) => StartingKeeps(t, draft, chat, draftPrint, ttl, now);
    case Prompt(id, message) => PromptingKeeps(t, id, message);
    case Find(now) => ExpiringKeeps(t, now);
    case Receive(id, body, draftPrint, chat, now) => ReceivingKeeps(t, id, body, draftPrint, chat, now);
    case Replace(id, ttl, now) => ReplacingKeeps(t, id, ttl, now);
    case Cancel(id) => CancellingOneKeeps(t, id);
    case CancelDraft(draft) => CancellingKeeps(t, draft);
    case Confirm(id, draftPrint, chat, eligibility, now) => ConfirmingOneKeeps(t, id, draftPrint, chat, eligibility, now);
    case Calibrate(record, eligibility) => CalibratingKeeps(t, record, eligibility);
    case Revoke(record) => RevokingKeeps(t, record);
  }

  lemma PromptingKeeps(t: Tables, id: SessionId, message: int)
    requires Invariant(t)
    ensures Invariant(Prompted(t, id, message))
  {
    if id in t.sessions && t.sessions[id].status.Pending? {
      SessionUpdateKeeps(t, id, t.sessions[id].(prompt := Max(0, message)));
    }
  }

  lemma CancellingOneKeeps(t: Tables, id: SessionId)
    requires Invariant(t)
    ensures Invariant(CancelledOne(t, id))
  {
    if id in t.sessions && Open(t.sessions[id]) {
      SessionUpdateKeeps(t, id, ClosedAs(t.sessions[id], Cancelled));
    }
  }

  lemma ConfirmingOneKeeps(t: Tables, id: SessionId, draftPrint: string, chat: string, eligibility: string, now: Time)
    requires Invariant(t)
    ensures Invariant(ConfirmedOne(t, id, draftPrint, chat, eligibility, now))
  {
    ExpiringKeeps(t, now);
    var u := ExpireStale(t, now);
    if MayConfirm(u, id, draftPrint, chat) {
      ConfirmingKeeps(u, id, eligibility, now);
    }
  }

  lemma CalibratingKeeps(t: Tables, record: RecordId, eligibility: string)
    requires Invariant(t)
    ensures Invariant(Calibrated(t, record, eligibility))
  {
    FlaggingKeeps(t, Calibrated(t, record, eligibility));
  }

  lemma RevokingKeeps(t: Tables, record: RecordId)
    requires Invariant(t)
    ensures Invariant(Revoked(t, record))
  {
    FlaggingKeeps(t, Revoked(t, record));
  }

  /** Every run keeps the invariant. */
  lemma {:induction false} RunKeeps(calls: seq<Call>)
    ensures Invariant(Run(calls))
  {
    if calls != [] {
      RunKeeps(calls[..|calls| - 1]);
      StepKeeps(Run(calls[..|calls| - 1]), calls[|calls| - 1]);
    }
  }

  /** The body check of a confirmation can never fail: a confirmation whose other guards hold always passes it. */
  lemma RecheckNeverFails(calls: seq<Call>, id: SessionId, draftPrint: string, chat: string, now: Time)
    requires MayConfirm(ExpireStale(Run(calls), now), id, draftPrint, chat)
    ensures BodyChecks(ExpireStale(Run(calls), now).sessions[id])
  {
    RunKeeps(calls);
    ExpiringKeeps(Run(calls), now);
    assert SessionSound(id, ExpireStale(Run(calls), now).sessions[id]);
  }

  /** A path of records, each superseding the next. */
  predicate Path(records: seq<Record>, p: seq<nat>) {
    && (forall k :: 0 <= k < |p| ==> p[k] < |records|)
    && (forall k :: 0 <= k < |p| - 1 ==> Supersedes(records, p[k], p[k + 1]))
  }

  /** In every run a chain of superseding records goes strictly back in insertion order and stays within one draft. */
  lemma {:induction false} ChainsGoBack(calls: seq<Call>, p: seq<nat>)
    requires Path(Run(calls).records, p) && |p| > 1
    ensures p[|p| - 1] < p[0] && Run(calls).records[p[|p| - 1]].draft == Run(calls).records[p[0]].draft
  {
    RunKeeps(calls);
    assert Supersedes(Run(calls).records, p[0], p[0 + 1]);
    SupersedingGoesBack(Run(calls).records, p[0], p[1]);
    if |p| > 2 {
      forall k | 0 <= k < |p[1..]| - 1 ensures Supersedes(Run(calls).records, p[1..][k], p[1..][k + 1]) {
        assert Supersedes(Run(calls).records, p[k + 1], p[k + 1 + 1]);
      }
      ChainsGoBack(calls, p[1..]);
    }
  }

  lemma SupersedingGoesBack(records: seq<Record>, i: nat, next: nat)
    requires RecordsSound(records) && i < |records| && next < |records| && Supersedes(records, i, next)
    ensures next < i && records[next].draft == records[i].draft && !records[next].active
  {
    var j :| 0 <= j < i && Supersedes(records, i, j) && records[j].draft == records[i].draft && !records[j].active;
    OneRowPerId(records, j, next);
  }

  /** A confirmation that is not refused leaves its record as the draft's one active record. */
  lemma ConfirmedIsActive(calls: seq<Call>, id: SessionId, draftPrint: string, chat: string, eligibility: string, now: Time)
    requires var u := ExpireStale(Run(calls), now);
             MayConfirm(u, id, draftPrint, chat) && !HasRecord(u.records, RecordId(id.draft, u.sessions[id].candidate.GetOr(Digest("")), now))
    ensures var u, next := ExpireStale(Run(calls), now), ConfirmedOne(Run(calls), id, draftPrint, chat, eligibility, now);
            && |next.records| == |u.records| + 1
            && LatestActive(next.records, id.draft) == Some(next.records[|u.records|].id)
            && next.records[|u.records|].supersedes == LatestActive(u.records, id.draft)
            && Some(next.records[|u.records|].body) == u.sessions[id].body
  {
    RunKeeps(calls);
    ExpiringKeeps(Run(calls), now);
    var u := ExpireStale(Run(calls), now);
    assert SessionSound(id, u.sessions[id]);
    var next := ConfirmedOne(Run(calls), id, draftPrint, chat, eligibility, now);
    ConfirmingKeeps(u, id, eligibility, now);
    LatestActiveIs(next.records, id.draft);
    assert next.records[|u.records|].active && next.records[|u.records|].draft == id.draft;
    var i :| 0 <= i < |next.records| && next.records[i].id == LatestActive(next.records, id.draft).value
             && next.records[i].draft == id.draft && next.records[i].active;
    OneActiveRow(next.records, i, |u.records|);
  }
}
