/**
 Edit sessions in time: what an expiry means, which sessions a call touches, and where every confirmed record comes from.
 */
module FinalEditTimes {
  import opened Common
  import opened FinalEdit
  import opened FinalEditProof

  // ---------------------------------------------------------------- one call

  /** A session at a time: once its life is over an open one expires, and its body is wiped. */
  function Aged(s: Session, now: Time): Session {
    if s.status in {Pending, Awaiting} && s.expires <= now then s.(status := Expired, body := None, candidate := None) else s
  }

  lemma ExpiryIs(t: Tables, now: Time)
    ensures var u := ExpireStale(t, now);
      u.records == t.records && u.sessions.Keys == t.sessions.Keys && forall i :: i in t.sessions ==> u.sessions[i] == Aged(t.sessions[i], now)
  {
  }

  /** The session is open for a body from this chat, for this version of the draft. */
  predicate Takes(t: Tables, id: SessionId, body: string, draftPrint: string, chat: string, now: Time) {
    && id in t.sessions && t.sessions[id].status == Pending && t.sessions[id].expires > now
    && t.sessions[id].chat == chat && t.sessions[id].draftPrint == draftPrint && body != "" && |body| <= 20_000
  }

  lemma ReceiveMeans(t: Tables, id: SessionId, body: string, draftPrint: string, chat: string, now: Time, i: SessionId)
    requires i in t.sessions
    ensures var next := Step(t, Receive(id, body, draftPrint, chat, now));
      && next.records == t.records && next.sessions.Keys == t.sessions.Keys
      && next.sessions[i] == if i == id && Takes(t, id, body, draftPrint, chat, now)
                             then t.sessions[i].(status := Awaiting, body := Some(body), candidate := Some(Digest(body)))
                             else Aged(t.sessions[i], now)
  {
    ExpiryIs(t, now);
  }

  lemma ReplaceMeans(t: Tables, id: SessionId, ttl: Time, now: Time, i: SessionId)
    requires i in t.sessions
    ensures var next := Step(t, Replace(id, ttl, now));
      && next.records == t.records && next.sessions.Keys == t.sessions.Keys
      && next.sessions[i] == if i == id && t.sessions[i].status == Awaiting && t.sessions[i].expires > now
                             then t.sessions[i].(status := Pending, body := None, candidate := None, prompt := 0, expires := now + ttl)
                             else Aged(t.sessions[i], now)
  {
    ExpiryIs(t, now);
  }

  /** The session holds a body that may be confirmed from this chat, for this version of the draft, and is not over. */
  predicate Holds(t: Tables, id: SessionId, draftPrint: string, chat: string, now: Time) {
    && id in t.sessions && t.sessions[id].status == Awaiting && t.sessions[id].expires > now
    && t.sessions[id].chat == chat && t.sessions[id].draftPrint == draftPrint
  }

  /** A confirmation adds a record exactly when its session holds a body still, and the record is new. */
  lemma ConfirmMeans(t: Tables, id: SessionId, draftPrint: string, chat: string, eligibility: string, now: Time)
    requires Invariant(t)
    ensures var next, call := Step(t, Confirm(id, draftPrint, chat, eligibility, now)), Confirm(id, draftPrint, chat, eligibility, now);
      if Holds(t, id, draftPrint, chat, now) && !HasRecord(t.records, RecordId(id.draft, Digest(t.sessions[id].body.GetOr("")), now))
      then |next.records| == |t.records| + 1 && RecordOf(next.records[|t.records|], t, call)
           && next.sessions.Keys == t.sessions.Keys && next.sessions[id] == t.sessions[id].(status := Confirmed, body := None)
      else next.records == t.records
  {
    ExpiryIs(t, now);
    if id in t.sessions {
      assert SessionSound(id, t.sessions[id]);
    }
  }

  /** The record is made of what the session held when it was confirmed. */
  predicate RecordOf(r: Record, t: Tables, call: Call) {
    && call.Confirm? && Holds(t, call.id, call.draftPrint, call.chat, call.now)
    && (var s := t.sessions[call.id];
        && r.draft == s.draft == call.id.draft && r.created == s.created == call.id.created && s.body == Some(r.body)
        && r.chat == s.chat && r.draftPrint == s.draftPrint && r.confirmedAt == call.now && r.eligibility == call.eligibility
        && r.active && !r.revoked && r.supersedes == LatestActive(t.records, s.draft))
  }

  // ---------------------------------------------------------------- what a call leaves alone

  predicate Timed(call: Call) {
    call.Start? || call.Find? || call.Receive? || call.Replace? || call.Confirm?
  }

  /** The sessions a call is about. */
  predicate Targets(call: Call, i: SessionId) {
    match call
    case Start(draft, _, _, _, _) => i.draft == draft
    case CancelDraft(draft) => i.draft == draft
    case Prompt(id, _) => i == id
    case Receive(id, _, _, _, _) => i == id
    case Replace(id, _, _) => i == id
    case Cancel(id) => i == id
    case Confirm(id, _, _, _, _) => i == id
    case Find(_) => false
    case Calibrate(_, _) => false
    case Revoke(_) => false
  }

  /** Any other session only ages, and that only in a call that knows the time. */
  lemma OthersOnlyAge(t: Tables, call: Call, i: SessionId)
    requires SessionsSound(t.sessions) && i in t.sessions && !Targets(call, i)
    ensures i in Step(t, call).sessions
    ensures Step(t, call).sessions[i] == if Timed(call) then Aged(t.sessions[i], call.now) else t.sessions[i]
  {
    assert SessionSound(i, t.sessions[i]);
    match call
    case Start(draft, chat, draftPrint, ttl, now) => ExpiryIs(t, now);
    case Find(now) => ExpiryIs(t, now);
    case Receive(id, body, draftPrint, chat, now) => ReceiveMeans(t, id, body, draftPrint, chat, now, i);
    case Replace(id, ttl, now) => ReplaceMeans(t, id, ttl, now, i);
    case Confirm(id, draftPrint, chat, eligibility, now) => ConfirmingLeaves(t, call, i);
    case Prompt(id, message) =>
    case Cancel(id) =>
    case CancelDraft(draft) =>
    case Calibrate(record, eligibility) =>
    case Revoke(record) =>
  }

  lemma ConfirmingLeaves(t: Tables, call: Call, i: SessionId)
    requires call.Confirm? && i in t.sessions
    ensures var next := Step(t, call);
      && next.sessions.Keys == t.sessions.Keys
      && (i != call.id ==> next.sessions[i] == Aged(t.sessions[i], call.now))
      && (i == call.id ==> next.sessions[i] == Aged(t.sessions[i], call.now) || next.sessions[i].status == Confirmed)
  {
    ExpiryIs(t, call.now);
  }

  /** A session comes from a start, which gives it its draft, chat, version and life. */
  lemma SessionsComeFromStarts(t: Tables, call: Call, i: SessionId)
    requires i in Step(t, call).sessions && i !in t.sessions
    ensures call.Start? && i == SessionId(call.draft, call.now)
    ensures Step(t, call).sessions[i] == Session(call.draft, call.chat, call.draftPrint, 0, None, None, Pending, call.now, call.now + call.ttl)
  {
    match call
    case Start(draft, chat, draftPrint, ttl, now) => ExpiryIs(t, now);
    case Find(now) => ExpiryIs(t, now);
    case Receive(id, body, draftPrint, chat, now) => ExpiryIs(t, now);
    case Replace(id, ttl, now) => ExpiryIs(t, now);
    case Confirm(id, draftPrint, chat, eligibility, now) => ExpiryIs(t, now);
    case Prompt(id, message) =>
    case Cancel(id) =>
    case CancelDraft(draft) =>
    case Calibrate(record, eligibility) =>
    case Revoke(record) =>
  }

  /** A start, or a cancellation, leaves no older session of the draft open; a start opens its own when the id is new. */
  lemma DraftIsCleared(t: Tables, call: Call, i: SessionId)
    requires SessionsSound(t.sessions) && (call.Start? || call.CancelDraft?) && i in t.sessions && i.draft == call.draft
    ensures Step(t, call).sessions[i].status !in {Pending, Awaiting} && Step(t, call).sessions[i].body == None
    ensures call.Start? && SessionId(call.draft, call.now) !in t.sessions ==>
              SessionId(call.draft, call.now) in Step(t, call).sessions && Step(t, call).sessions[SessionId(call.draft, call.now)].status == Pending
  {
    assert SessionSound(i, t.sessions[i]);
    if call.Start? {
      StartClears(t, call, i);
    } else {
      CancelClears(t, call.draft, i);
    }
  }

  lemma CancelClears(t: Tables, draft: string, i: SessionId)
    requires i in t.sessions && t.sessions[i].draft == draft && (t.sessions[i].body.Some? ==> t.sessions[i].status.Awaiting?)
    ensures var s := CancelOpen(t, draft).sessions[i]; s.status !in {Pending, Awaiting} && s.body == None
    ensures CancelOpen(t, draft).sessions.Keys == t.sessions.Keys
  {
  }

  lemma StartClears(t: Tables, call: Call, i: SessionId)
    requires call.Start? && i in t.sessions && t.sessions[i].draft == call.draft && (t.sessions[i].body.Some? ==> t.sessions[i].status.Awaiting?)
    ensures Step(t, call).sessions[i].status !in {Pending, Awaiting} && Step(t, call).sessions[i].body == None
    ensures SessionId(call.draft, call.now) !in t.sessions ==>
              SessionId(call.draft, call.now) in Step(t, call).sessions && Step(t, call).sessions[SessionId(call.draft, call.now)].status == Pending
  {
    ExpiryIs(t, call.now);
    CancelClears(ExpireStale(t, call.now), call.draft, i);
  }

  /** Exactly a pending session takes the prompt that was sent for it. */
  lemma PromptMeans(t: Tables, id: SessionId, message: nat)
    requires id in t.sessions
    ensures Step(t, Prompt(id, message)).sessions[id] == if t.sessions[id].status == Pending then t.sessions[id].(prompt := message) else t.sessions[id]
  {
  }

  /** Cancelling closes exactly an open session. */
  lemma CancelMeans(t: Tables, id: SessionId)
    requires id in t.sessions
    ensures var s, after := t.sessions[id], Step(t, Cancel(id)).sessions[id];
      after == if s.status in {Pending, Awaiting} then s.(status := Cancelled, body := None, candidate := None) else s
  {
  }

  /** After a call that knows the time, no session is open whose life is over. */
  lemma NoneOutlives(t: Tables, call: Call, i: SessionId)
    requires SessionsSound(t.sessions) && Timed(call) && i in Step(t, call).sessions
    requires call.Start? || call.Replace? ==> call.ttl > 0
    ensures Step(t, call).sessions[i].status in {Pending, Awaiting} ==> Step(t, call).sessions[i].expires > call.now
  {
    if i !in t.sessions {
      SessionsComeFromStarts(t, call, i);
    } else if !Targets(call, i) {
      OthersOnlyAge(t, call, i);
    } else {
      match call
      case Start(draft, chat, draftPrint, ttl, now) => DraftIsCleared(t, call, i);
      case Receive(id, body, draftPrint, chat, now) => ReceiveMeans(t, id, body, draftPrint, chat, now, i);
      case Replace(id, ttl, now) => ReplaceMeans(t, id, ttl, now, i);
      case Confirm(id, draftPrint, chat, eligibility, now) => ConfirmingLeaves(t, call, i);
    }
  }

  // ---------------------------------------------------------------- records

  /** Revoking and calibrating change only the flags of the rows with that id. */
  lemma FlagsMean(t: Tables, call: Call, i: nat)
    requires (call.Revoke? || call.Calibrate?) && i < |t.records|
    ensures var next := Step(t, call);
      && next.sessions == t.sessions && |next.records| == |t.records|
      && next.records[i] == if t.records[i].id != call.record then t.records[i]
                            else if call.Revoke? then t.records[i].(revoked := true, active := false)
                            else t.records[i].(eligibility := call.eligibility)
  {
  }

  /** What no call changes in a record. */
  predicate SameRecord(r: Record, s: Record) {
    r.id == s.id && r.draft == s.draft && r.chat == s.chat && r.draftPrint == s.draftPrint && r.body == s.body
    && r.created == s.created && r.confirmedAt == s.confirmedAt && r.supersedes == s.supersedes
  }

  lemma RecordsStay(t: Tables, call: Call, i: nat)
    requires i < |t.records|
    ensures i < |Step(t, call).records| && SameRecord(t.records[i], Step(t, call).records[i])
  {
    if call.Confirm? { ExpiryIs(t, call.now); }
  }

  lemma RecordsComeFromConfirmations(t: Tables, call: Call, i: nat)
    requires Invariant(t) && |t.records| <= i < |Step(t, call).records|
    ensures RecordOf(Step(t, call).records[i], t, call)
  {
    if call.Confirm? {
      ConfirmMeans(t, call.id, call.draftPrint, call.chat, call.eligibility, call.now);
    } else {
      OnlyConfirmationsAdd(t, call);
    }
  }

  lemma OnlyConfirmationsAdd(t: Tables, call: Call)
    requires !call.Confirm?
    ensures |Step(t, call).records| == |t.records|
  {
  }

  // ---------------------------------------------------------------- provenance over runs

  /** That call of the run confirmed the record, before the life of its session was over. */
  predicate ConfirmedAt(calls: seq<Call>, n: nat, r: Record)
    requires n < |calls|
  {
    var t, call := Run(calls[..n]), calls[n];
    && call.Confirm? && call.id == SessionId(r.draft, r.created) && Holds(t, call.id, r.draftPrint, r.chat, r.confirmedAt)
    && call.now == r.confirmedAt && call.chat == r.chat && call.draftPrint == r.draftPrint && t.sessions[call.id].body == Some(r.body)
  }

  /** In every run each record was confirmed in time, from the chat and for the version of its session, with the body it held. */
  lemma {:induction false} RecordsWereConfirmed(calls: seq<Call>, i: nat) returns (n: nat)
    requires i < |Run(calls).records|
    ensures n < |calls| && ConfirmedAt(calls, n, Run(calls).records[i])
  {
    var init, last := calls[..|calls| - 1], calls[|calls| - 1];
    RunKeeps(init);
    if i < |Run(init).records| {
      n := RecordsWereConfirmed(init, i);
      RecordsStay(Run(init), last, i);
      assert init[..n] == calls[..n];
    } else {
      n := |init|;
      RecordsComeFromConfirmations(Run(init), last, i);
      assert calls[..n] == init;
    }
  }

  /** That call of the run brought the body, from the chat and for the version of the session. */
  predicate ReceivedAt(calls: seq<Call>, m: nat, id: SessionId, body: string, draftPrint: string, chat: string)
    requires m < |calls|
  {
    calls[m].Receive? && calls[m].id == id && calls[m].body == body && calls[m].draftPrint == draftPrint && calls[m].chat == chat
    && Takes(Run(calls[..m]), id, body, draftPrint, chat, calls[m].now)
  }

  lemma BodiesComeFromReceipts(t: Tables, call: Call, i: SessionId)
    requires Invariant(t) && i in Step(t, call).sessions && Step(t, call).sessions[i].body.Some?
    ensures var s := Step(t, call).sessions[i];
      || (i in t.sessions && t.sessions[i].body == s.body && t.sessions[i].draftPrint == s.draftPrint && t.sessions[i].chat == s.chat)
      || (call.Receive? && call.id == i && Some(call.body) == s.body && call.draftPrint == s.draftPrint && call.chat == s.chat
          && Takes(t, i, call.body, call.draftPrint, call.chat, call.now))
  {
    if i !in t.sessions {
      SessionsComeFromStarts(t, call, i);
    } else if !Targets(call, i) {
      OthersOnlyAge(t, call, i);
    } else {
      match call
      case Receive(id, body, draftPrint, chat, now) => ReceiveMeans(t, id, body, draftPrint, chat, now, i);
      case Replace(id, ttl, now) => ReplaceMeans(t, id, ttl, now, i);
      case Confirm(id, draftPrint, chat, eligibility, now) => ConfirmedHasNoBody(t, call, i);
      case Start(draft, chat, draftPrint, ttl, now) => DraftIsCleared(t, call, i);
      case CancelDraft(draft) =>
      case Cancel(id) =>
      case Prompt(id, message) =>
    }
  }

  lemma ConfirmedHasNoBody(t: Tables, call: Call, i: SessionId)
    requires Invariant(t) && call.Confirm? && i == call.id && i in t.sessions
    ensures var s := Step(t, call).sessions[i];
      s.body == None || (s.body == t.sessions[i].body && s.draftPrint == t.sessions[i].draftPrint && s.chat == t.sessions[i].chat)
  {
    ExpiryIs(t, call.now);
  }

  /** A body that a session holds was received for it in the run. */
  lemma {:induction false} BodiesWereReceived(calls: seq<Call>, i: SessionId) returns (m: nat)
    requires i in Run(calls).sessions && Run(calls).sessions[i].body.Some?
    ensures var s := Run(calls).sessions[i]; m < |calls| && ReceivedAt(calls, m, i, s.body.value, s.draftPrint, s.chat)
  {
    var init, last := calls[..|calls| - 1], calls[|calls| - 1];
    RunKeeps(init);
    BodiesComeFromReceipts(Run(init), last, i);
    var s := Run(calls).sessions[i];
    if i in Run(init).sessions && Run(init).sessions[i].body == s.body && Run(init).sessions[i].draftPrint == s.draftPrint && Run(init).sessions[i].chat == s.chat {
      m := BodiesWereReceived(init, i);
      assert init[..m] == calls[..m];
    } else {
      m := |init|;
      assert calls[..m] == init;
    }
  }

  /**
   Nothing is confirmed that the editor did not write: the body of every record was received for its session, from its
   chat and for its version of the draft, before a confirmation from that chat and for that version, each in time.
   */
  lemma RecordsHaveProvenance(calls: seq<Call>, i: nat) returns (m: nat, n: nat)
    requires i < |Run(calls).records|
    ensures var r := Run(calls).records[i];
      && m < n < |calls| && ConfirmedAt(calls, n, r) && ReceivedAt(calls, m, SessionId(r.draft, r.created), r.body, r.draftPrint, r.chat)
  {
    n := RecordsWereConfirmed(calls, i);
    var before := calls[..n];
    m := BodiesWereReceived(before, calls[n].id);
    assert before[..m] == calls[..m];
  }
}
