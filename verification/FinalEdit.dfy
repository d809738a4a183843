/**
 Final-edit capture: edit sessions per draft, and the confirmed records that supersede one another.

 The two tables are a map from session id to session and the records in insertion order. Session and record
 ids, and body fingerprints, are hashes taken to be injective and modelled by what they hash. A statement that
 updates rows under a condition is one map or sequence update. Message bodies arrive stripped.
 */
module FinalEdit {
  import opened Common

  datatype SessionId = SessionId(draft: string, created: Time)

  datatype Digest = Digest(text: string)

  datatype RecordId = RecordId(draft: string, body: Digest, confirmedAt: Time)

  datatype Status = Pending | Awaiting | Confirmed | Cancelled | Expired

  datatype Session = Session(
    draft: string, chat: string, draftPrint: string, prompt: nat, body: Option<string>, candidate: Option<Digest>,
    status: Status, created: Time, expires: Time)

  datatype Record = Record(
    id: RecordId, draft: string, chat: string, draftPrint: string, body: string, created: Time, confirmedAt: Time,
    supersedes: Option<RecordId>, revoked: bool, active: bool, eligibility: string)

  datatype Tables = Tables(sessions: map<SessionId, Session>, records: seq<Record>)

  const EMPTY := Tables(map[], [])

  const MAX_CHARS := 20_000

  predicate Open(s: Session) {
    s.status.Pending? || s.status.Awaiting?
  }

  function ClosedAs(s: Session, status: Status): Session {
    s.(status := status, body := None, candidate := None)
  }

  // ---------------------------------------------------------------- statements

  function ExpireStale(t: Tables, now: Time): Tables {
    t.(sessions := map i | i in t.sessions ::
         if Open(t.sessions[i]) && t.sessions[i].expires <= now then ClosedAs(t.sessions[i], Expired) else t.sessions[i])
  }

  function CancelOpen(t: Tables, draft: string): Tables {
    t.(sessions := map i | i in t.sessions ::
         if Open(t.sessions[i]) && t.sessions[i].draft == draft then ClosedAs(t.sessions[i], Cancelled) else t.sessions[i])
  }

  /** The last confirmed record of the draft that is still active. */
  function LatestActive(records: seq<Record>, draft: string): Option<RecordId> {
    if records == [] then None
    else
      var last, best := records[|records| - 1], LatestActive(records[..|records| - 1], draft);
      if last.draft == draft && last.active && !last.revoked && (best.None? || best.value.confirmedAt <= last.confirmedAt)
      then Some(last.id) else best
  }

  function Deactivated(records: seq<Record>, id: Option<RecordId>): seq<Record> {
    seq(|records|, i requires 0 <= i < |records| => if id == Some(records[i].id) then records[i].(active := false) else records[i])
  }

  predicate HasRecord(records: seq<Record>, id: RecordId) {
    exists i :: 0 <= i < |records| && records[i].id == id
  }

  // ---------------------------------------------------------------- calls

  function Started(t: Tables, draft: string, chat: string, draftPrint: string, ttl: Time, now: Time): Tables {
    var cleared := CancelOpen(ExpireStale(t, now), draft);
    var id := SessionId(draft, now);
    if id in cleared.sessions then cleared
    else cleared.(sessions := cleared.sessions[id := Session(draft, chat, draftPrint, 0, None, None, Pending, now, now + ttl)])
  }

  function Prompted(t: Tables, id: SessionId, message: int): Tables {
    if id in t.sessions && t.sessions[id].status.Pending?
    then t.(sessions := t.sessions[id := t.sessions[id].(prompt := Max(0, message))]) else t
  }

  predicate MayReceive(t: Tables, id: SessionId, body: string, draftPrint: string, chat: string) {
    id in t.sessions && t.sessions[id].status.Pending? && t.sessions[id].chat == chat
    && t.sessions[id].draftPrint == draftPrint && 0 < |body| <= MAX_CHARS
  }

  function Received(t: Tables, id: SessionId, body: string, draftPrint: string, chat: string, now: Time): Tables {
    var fresh' := ExpireStale(t, now);
    if MayReceive(fresh', id, body, draftPrint, chat)
    then fresh'.(sessions := fresh'.sessions[id := fresh'.sessions[id].(body := Some(body), candidate := Some(Digest(body)), status := Awaiting)])
    else fresh'
  }

  function Replaced(t: Tables, id: SessionId, ttl: Time, now: Time): Tables {
    var fresh' := ExpireStale(t, now);
    if id in fresh'.sessions && fresh'.sessions[id].status.Awaiting?
    then fresh'.(sessions := fresh'.sessions[id := ClosedAs(fresh'.sessions[id], Pending).(prompt := 0, expires := now + ttl)])
    else fresh'
  }

  function CancelledOne(t: Tables, id: SessionId): Tables {
    if id in t.sessions && Open(t.sessions[id])
    then t.(sessions := t.sessions[id := ClosedAs(t.sessions[id], Cancelled)]) else t
  }

  /** The guards of a confirmation, in the order they are checked. */
  predicate MayConfirm(t: Tables, id: SessionId, draftPrint: string, chat: string) {
    id in t.sessions && t.sessions[id].status.Awaiting? && t.sessions[id].chat == chat && t.sessions[id].draftPrint == draftPrint
  }

  /** The body is there and matches its fingerprint. */
  predicate BodyChecks(s: Session) {
    s.body.Some? && s.body.value != "" && s.candidate == Some(Digest(s.body.value))
  }

  function Confirmation(t: Tables, id: SessionId, eligibility: string, now: Time): Tables
    requires id in t.sessions && t.sessions[id].body.Some?
  {
    var s := t.sessions[id];
    var recordId := RecordId(s.draft, Digest(s.body.value), now);
    var previous := LatestActive(t.records, s.draft);
    if HasRecord(t.records, recordId) then t
    else
      Tables(t.sessions[id := s.(status := Confirmed, body := None)],
             Deactivated(t.records, previous)
             + [Record(recordId, s.draft, s.chat, s.draftPrint, s.body.value, s.created, now, previous, false, true, eligibility)])
  }

  /** A confirmation goes through: its guards hold and its record is new. */
  predicate Confirms(t: Tables, id: SessionId, draftPrint: string, chat: string, now: Time) {
    && MayConfirm(t, id, draftPrint, chat) && BodyChecks(t.sessions[id])
    && !HasRecord(t.records, RecordId(t.sessions[id].draft, Digest(t.sessions[id].body.value), now))
  }

  function ConfirmedOne(t: Tables, id: SessionId, draftPrint: string, chat: string, eligibility: string, now: Time): Tables {
    var fresh' := ExpireStale(t, now);
    if MayConfirm(fresh', id, draftPrint, chat) && BodyChecks(fresh'.sessions[id])
    then Confirmation(fresh', id, eligibility, now) else fresh'
  }

  function Calibrated(t: Tables, id: RecordId, eligibility: string): Tables {
    t.(records := seq(|t.records|, i requires 0 <= i < |t.records| =>
         if t.records[i].id == id then t.records[i].(eligibility := eligibility) else t.records[i]))
  }

  function Revoked(t: Tables, id: RecordId): Tables {
    t.(records := seq(|t.records|, i requires 0 <= i < |t.records| =>
         if t.records[i].id == id then t.records[i].(revoked := true, active := false) else t.records[i]))
  }

  datatype Call =
    | Start(draft: string, chat: string, draftPrint: string, ttl: Time, now: Time)
    | Prompt(id: SessionId, message: int)
    | Find(now: Time)
    | Receive(id: SessionId, body: string, draftPrint: string, chat: string, now: Time)
    | Replace(id: SessionId, ttl: Time, now: Time)
    | Cancel(id: SessionId)
    | CancelDraft(draft: string)
    | Confirm(id: SessionId, draftPrint: string, chat: string, eligibility: string, now: Time)
    | Calibrate(record: RecordId, eligibility: string)
    | Revoke(record: RecordId)

  function Step(t: Tables, call: Call): Tables {
    match call
    case Start(draft, chat, draftPrint, ttl, now) => Started(t, draft, chat, draftPrint, ttl, now)
    case Prompt(id, message) => Prompted(t, id, message)
    case Find(now) => ExpireStale(t, now)
    case Receive(id, body, draftPrint, chat, now) => Received(t, id, body, draftPrint, chat, now)
    case Replace(id, ttl, now) => Replaced(t, id, ttl, now)
    case Cancel(id) => CancelledOne(t, id)
    case CancelDraft(draft) => CancelOpen(t, draft)
    case Confirm(id, draftPrint, chat, eligibility, now) => ConfirmedOne(t, id, draftPrint, chat, eligibility, now)
    case Calibrate(record, eligibility) => Calibrated(t, record, eligibility)
    case Revoke(record) => Revoked(t, record)
  }

  function Run(calls: seq<Call>): Tables {
    if calls == [] then EMPTY else Step(Run(calls[..|calls| - 1]), calls[|calls| - 1])
  }

  // ---------------------------------------------------------------- the store

  class Store {
    const ttl: Time
    var sessions: map<SessionId, Session>
    var records: seq<Record>

    ghost function Value(): Tables
      reads this
    {
      Tables(sessions, records)
    }

    constructor (ttlSeconds: int)
      ensures Value() == EMPTY && 60 * 1_000_000 <= ttl <= 24 * 3600 * 1_000_000
    {
      ttl := Max(60, Min(ttlSeconds, 24 * 3600)) * 1_000_000;
      sessions, records := map[], [];
    }

    method Expire(now: Time)
      modifies this`sessions
      ensures Value() == ExpireStale(old(Value()), now)
    {
      sessions := map i | i in sessions ::
        if Open(sessions[i]) && sessions[i].expires <= now then ClosedAs(sessions[i], Expired) else sessions[i];
    }

    method CancelOpenForDraft(draft: string)
      modifies this`sessions
      ensures Value() == CancelOpen(old(Value()), draft)
    {
      sessions := map i | i in sessions ::
        if Open(sessions[i]) && sessions[i].draft == draft then ClosedAs(sessions[i], Cancelled) else sessions[i];
    }

    /** None stands for the integrity error of a second session of the draft at the same instant. */
    method StartSession(draft: string, chat: string, draftPrint: string, now: Time) returns (id: Option<SessionId>)
      modifies this`sessions
      ensures Value() == Started(old(Value()), draft, chat, draftPrint, ttl, now)
      ensures id.Some? <==> SessionId(draft, now) !in old(sessions)
    {
      Expire(now);
      CancelOpenForDraft(draft);
      var sessionId := SessionId(draft, now);
      if sessionId in sessions {
        return None;
      }
      sessions := sessions[sessionId := Session(draft, chat, draftPrint, 0, None, None, Pending, now, now + ttl)];
      id := Some(sessionId);
    }

    method SetPromptMessage(id: SessionId, message: int) returns (changed: bool)
      modifies this`sessions
      ensures Value() == Prompted(old(Value()), id, message)
      ensures changed <==> id in old(sessions) && old(sessions)[id].status.Pending?
    {
      changed := id in sessions && sessions[id].status.Pending?;
      if changed {
        sessions := sessions[id := sessions[id].(prompt := Max(0, message))];
      }
    }

    method ReceiveUserText(id: SessionId, body: string, draftPrint: string, chat: string, now: Time) returns (ok: bool)
      modifies this`sessions
      ensures Value() == Received(old(Value()), id, body, draftPrint, chat, now)
      ensures ok <==> id in old(sessions) && old(sessions)[id].status.Pending? && old(sessions)[id].expires > now
                      && old(sessions)[id].chat == chat && old(sessions)[id].draftPrint == draftPrint && 0 < |body| <= 20_000
    {
      Expire(now);
      if id !in sessions || !sessions[id].status.Pending? || sessions[id].chat != chat || sessions[id].draftPrint != draftPrint {
        return false;
      }
      if body == "" || |body| > MAX_CHARS {
        return false;
      }
      sessions := sessions[id := sessions[id].(body := Some(body), candidate := Some(Digest(body)), status := Awaiting)];
      ok := true;
    }

    method ReplaceCandidate(id: SessionId, now: Time) returns (ok: bool)
      modifies this`sessions
      ensures Value() == Replaced(old(Value()), id, ttl, now)
      ensures ok <==> id in old(sessions) && old(sessions)[id].status.Awaiting? && old(sessions)[id].expires > now
    {
      Expire(now);
      ok := id in sessions && sessions[id].status.Awaiting?;
      if ok {
        sessions := sessions[id := sessions[id].(body := None, candidate := None, prompt := 0, status := Pending, expires := now + ttl)];
      }
    }

    method CancelSession(id: SessionId) returns (ok: bool)
      modifies this`sessions
      ensures Value() == CancelledOne(old(Value()), id)
      ensures ok <==> id in old(sessions) && Open(old(sessions)[id])
    {
      ok := id in sessions && Open(sessions[id]);
      if ok {
        sessions := sessions[id := ClosedAs(sessions[id], Cancelled)];
      }
    }

    method ConfirmSession(id: SessionId, draftPrint: string, chat: string, eligibility: string, now: Time) returns (ok: bool)
      modifies this`sessions, this`records
      ensures Value() == ConfirmedOne(old(Value()), id, draftPrint, chat, eligibility, now)
      ensures ok ==> id in old(sessions) && old(sessions)[id].status.Awaiting? && old(sessions)[id].expires > now
                     && old(sessions)[id].chat == chat && old(sessions)[id].draftPrint == draftPrint
      ensures ok <==> Confirms(ExpireStale(old(Value()), now), id, draftPrint, chat, now)
      ensures !ok ==> records == old(records)
    {
      Expire(now);
      if id !in sessions || !sessions[id].status.Awaiting? || sessions[id].chat != chat || sessions[id].draftPrint != draftPrint {
        return false;
      }
      var s := sessions[id];
      if s.body.None? || s.body.value == "" || s.candidate != Some(Digest(s.body.value)) {
        return false;
      }
      var recordId := RecordId(s.draft, Digest(s.body.value), now);
      var previous := LatestActive(records, s.draft);
      if HasRecord(records, recordId) {
        return false;
      }
      DeactivateRecord(previous);
      records := records + [Record(recordId, s.draft, s.chat, s.draftPrint, s.body.value, s.created, now, previous, false, true, eligibility)];
      sessions := sessions[id := s.(status := Confirmed, body := None)];
      ok := true;
    }

    method DeactivateRecord(id: Option<RecordId>)
      modifies this`records
      ensures records == Deactivated(old(records), id)
    {
      ghost var before := records;
      for i := 0 to |records|
        invariant |records| == |before|
        invariant forall k :: 0 <= k < i ==> records[k] == Deactivated(before, id)[k]
        invariant forall k :: i <= k < |records| ==> records[k] == before[k]
      {
        if id == Some(records[i].id) {
          records := records[i := records[i].(active := false)];
        }
      }
    }

    method RevokeFinalEdit(id: RecordId) returns (revoked: bool)
      modifies this`records
      ensures Value() == Revoked(old(Value()), id)
      ensures revoked <==> HasRecord(old(records), id)
    {
      ghost var before := Value();
      revoked := HasRecord(records, id);
      for i := 0 to |records|
        invariant |records| == |before.records|
        invariant forall k :: 0 <= k < i ==> records[k] == Revoked(before, id).records[k]
        invariant forall k :: i <= k < |records| ==> records[k] == before.records[k]
      {
        if records[i].id == id {
          records := records[i := records[i].(revoked := true, active := false)];
        }
      }
    }
  }
}
