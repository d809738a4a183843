/**
 Budgeted batch translation of fic summaries, with isolation of blocked items.

 The provider is a tape of replies, the k-th call of a digest getting the k-th reply: every behaviour of the
 provider, however it depends on what it was asked, is some tape. `log` is a history of the calls made.
 */
module FicBatches {
  import opened Common

  datatype FailureKind = Quota | Authentication | Transport | Other

  /** One generated item: which fic it names, whether it passes the quality gates, and its summary. */
  datatype Item = Item(url: string, accepted: bool, summary: string)

  datatype Reply = Items(items: seq<Item>) | Failure(retryable: bool, kind: FailureKind)

  /** A call made: the model, the fics asked about, the reply, and whether a failure was the model's last word. */
  datatype Entry = Entry(model: string, asked: seq<string>, reply: Reply, final: bool)

  datatype Summary = Accepted(text: string) | Fallback

  const BATCH := 8

  predicate Retires(e: Entry) {
    e.final && e.reply.Failure? && e.reply.kind.Quota?
  }

  predicate Fatal(e: Entry) {
    e.final && e.reply.Failure? && (e.reply.kind.Authentication? || e.reply.kind.Transport?)
  }

  /** A model retired for quota is never called again. */
  ghost predicate RetiredStayRetired(log: seq<Entry>) {
    forall j, k :: 0 <= j < k < |log| && Retires(log[j]) ==> log[k].model != log[j].model
  }

  /** Nothing follows a project-wide failure. */
  ghost predicate FatalIsLast(log: seq<Entry>) {
    forall j :: 0 <= j < |log| - 1 ==> !Fatal(log[j])
  }

  /** The retired models are exactly those with a final quota failure. */
  ghost predicate Tracked(log: seq<Entry>, unavailable: set<string>) {
    && (forall k :: 0 <= k < |log| && Retires(log[k]) ==> log[k].model in unavailable)
    && (forall m :: m in unavailable ==> exists k :: 0 <= k < |log| && Retires(log[k]) && log[k].model == m)
  }

  ghost predicate Played(log: seq<Entry>, tape: seq<Reply>) {
    |log| <= |tape| && forall k :: 0 <= k < |log| ==> log[k].reply == tape[k]
  }

  ghost predicate Sound(log: seq<Entry>, unavailable: set<string>, tape: seq<Reply>) {
    Tracked(log, unavailable) && Played(log, tape) && RetiredStayRetired(log) && FatalIsLast(log)
  }

  /** A call to a model in service, before any project-wide failure. */
  lemma CallKeepsSound(log: seq<Entry>, unavailable: set<string>, tape: seq<Reply>, e: Entry)
    requires Sound(log, unavailable, tape) && NoFatal(log)
    requires e.model !in unavailable && |log| < |tape| && e.reply == tape[|log|]
    ensures Sound(log + [e], unavailable + If(Retires(e), e.model), tape)
  {
    CallIsTracked(log, unavailable, e);
    assert forall k :: 0 <= k < |log| ==> (log + [e])[k] == log[k];
  }

  lemma CallIsTracked(log: seq<Entry>, unavailable: set<string>, e: Entry)
    requires Tracked(log, unavailable)
    ensures Tracked(log + [e], unavailable + If(Retires(e), e.model))
  {
    var longer := log + [e];
    forall m | m in unavailable ensures exists k :: 0 <= k < |longer| && Retires(longer[k]) && longer[k].model == m {
      var k :| 0 <= k < |log| && Retires(log[k]) && log[k].model == m;
      assert longer[k] == log[k];
    }
    assert longer[|log|] == e;
  }

  ghost predicate NoFatal(log: seq<Entry>) {
    forall j :: 0 <= j < |log| ==> !Fatal(log[j])
  }

  /** The last item for the fic that passed the gates has that summary. */
  ghost predicate LastAccepted(items: seq<Item>, url: string, text: string) {
    exists i :: 0 <= i < |items| && items[i] == Item(url, true, text) && forall j :: i < j < |items| ==> !(items[j].url == url && items[j].accepted)
  }

  /** Some reply's last item for the fic that passed the gates had that summary. */
  ghost predicate GateAccepted(log: seq<Entry>, url: string, text: string) {
    exists k :: 0 <= k < |log| && log[k].reply.Items? && LastAccepted(log[k].reply.items, url, text)
  }

  ghost predicate AllAccepted(log: seq<Entry>, result: map<string, string>) {
    forall url :: url in result ==> GateAccepted(log, url, result[url])
  }

  lemma AcceptedStays(log: seq<Entry>, longer: seq<Entry>, result: map<string, string>)
    requires log <= longer && AllAccepted(log, result)
    ensures AllAccepted(longer, result)
  {
    forall url | url in result ensures GateAccepted(longer, url, result[url]) {
      var k :| 0 <= k < |log| && log[k].reply.Items? && LastAccepted(log[k].reply.items, url, result[url]);
      assert longer[k] == log[k];
    }
  }

  /** The accepted items for fics of the subset, the last one winning. */
  function Kept(items: seq<Item>, urls: set<string>): map<string, string> {
    if items == [] then map[]
    else
      var last, rest := items[|items| - 1], Kept(items[..|items| - 1], urls);
      if last.url in urls && last.accepted then rest[last.url := last.summary] else rest
  }

  lemma {:induction false} KeptIsAccepted(items: seq<Item>, urls: set<string>)
    ensures Kept(items, urls).Keys <= urls
    ensures forall url :: url in Kept(items, urls) ==> LastAccepted(items, url, Kept(items, urls)[url])
  {
    if items != [] {
      var init, last := items[..|items| - 1], items[|items| - 1];
      KeptIsAccepted(init, urls);
      forall url | url in Kept(items, urls) ensures LastAccepted(items, url, Kept(items, urls)[url]) {
        if last.url == url && last.accepted {
          assert items[|items| - 1] == Item(url, true, Kept(items, urls)[url]);
        } else {
          LastAcceptedStays(init, last, url, Kept(init, urls)[url]);
          assert items == init + [last];
        }
      }
    }
  }

  lemma LastAcceptedStays(items: seq<Item>, more: Item, url: string, text: string)
    requires LastAccepted(items, url, text) && !(more.url == url && more.accepted)
    ensures LastAccepted(items + [more], url, text)
  {
    var i :| 0 <= i < |items| && items[i] == Item(url, true, text) && forall j :: i < j < |items| ==> !(items[j].url == url && items[j].accepted);
    assert (items + [more])[i] == items[i];
  }

  function Urls(fics: seq<string>): set<string> {
    set u | u in fics
  }

  /** The reply has an item for the fic that passed the gates. */
  ghost predicate Accepts(items: seq<Item>, url: string) {
    exists i :: 0 <= i < |items| && items[i].url == url && items[i].accepted
  }

  lemma {:induction false} KeptIff(items: seq<Item>, urls: set<string>, url: string)
    ensures url in Kept(items, urls) <==> url in urls && Accepts(items, url)
  {
    if items != [] {
      var init, last := items[..|items| - 1], items[|items| - 1];
      KeptIff(init, urls, url);
      assert forall i :: 0 <= i < |init| ==> items[i] == init[i];
      if Accepts(init, url) {
        var i :| 0 <= i < |init| && init[i].url == url && init[i].accepted;
        assert items[i].url == url && items[i].accepted;
      }
    }
  }

  /** No item of the reply is accepted and names a fic of the batch. */
  ghost predicate SettlesNone(items: seq<Item>, batch: seq<string>) {
    forall url :: url in batch ==> !Accepts(items, url)
  }

  lemma KeptNone(items: seq<Item>, batch: seq<string>)
    ensures Kept(items, Urls(batch)) == map[] <==> SettlesNone(items, batch)
  {
    forall url ensures url in Kept(items, Urls(batch)) <==> url in batch && Accepts(items, url) {
      KeptIff(items, Urls(batch), url);
    }
    if Kept(items, Urls(batch)) != map[] {
      assert exists url :: url in Kept(items, Urls(batch));
    }
  }

  /** A call since then asked about the fic and got an accepted item for it. */
  ghost predicate Answered(log: seq<Entry>, from: nat, url: string) {
    exists k :: from <= k < |log| && url in log[k].asked && log[k].reply.Items? && Accepts(log[k].reply.items, url)
  }

  /** The calls since then asked about these fics only, and every accepted answer to them was kept. */
  ghost predicate Caught(log: seq<Entry>, from: nat, fics: set<string>, kept: set<string>) {
    && (forall k :: from <= k < |log| ==> Urls(log[k].asked) <= fics)
    && (forall url :: Answered(log, from, url) ==> url in kept)
  }

  lemma CaughtNothing(log: seq<Entry>, fics: set<string>)
    ensures Caught(log, |log|, fics, {})
  {
  }

  lemma CaughtOn(before: seq<Entry>, log: seq<Entry>, from: nat, fics: set<string>, more: set<string>, kept: set<string>, new': set<string>)
    requires before <= log && from <= |before| && Caught(before, from, fics, kept) && Caught(log, |before|, more, new') && more <= fics
    ensures Caught(log, from, fics, kept + new')
  {
    forall k | from <= k < |log| ensures Urls(log[k].asked) <= fics {
      assert k < |before| ==> log[k] == before[k];
    }
    forall url | Answered(log, from, url) ensures url in kept + new' {
      var k :| from <= k < |log| && url in log[k].asked && log[k].reply.Items? && Accepts(log[k].reply.items, url);
      if k < |before| {
        assert before[k] == log[k] && Answered(before, from, url);
      } else {
        assert Answered(log, |before|, url);
      }
    }
  }

  lemma CaughtRest(before: seq<Entry>, log: seq<Entry>, from: nat, fics: set<string>, kept: set<string>, result: set<string>)
    requires before <= log && from <= |before| && Caught(before, from, fics, kept) && Caught(log, |before|, fics, result) && kept <= result
    ensures Caught(log, from, fics, result)
  {
    CaughtOn(before, log, from, fics, fics, kept, result);
    assert kept + result == result;
  }

  lemma CaughtMore(log: seq<Entry>, from: nat, fics: set<string>, more: set<string>, kept: set<string>, kept': set<string>)
    requires Caught(log, from, fics, kept) && fics <= more && kept <= kept'
    ensures Caught(log, from, more, kept')
  {
  }

  /** The model was asked about exactly this batch, and failed for good or answered with nothing acceptable for it. */
  ghost predicate Refused(log: seq<Entry>, model: string, batch: seq<string>) {
    exists k :: 0 <= k < |log| && RefusedAt(log[k], model, batch)
  }

  ghost predicate RefusedAt(e: Entry, model: string, batch: seq<string>) {
    e.model == model && e.asked == batch && if e.reply.Items? then SettlesNone(e.reply.items, batch) else e.final
  }

  lemma RefusedStays(log: seq<Entry>, longer: seq<Entry>, model: string, batch: seq<string>)
    requires log <= longer && Refused(log, model, batch)
    ensures Refused(longer, model, batch)
  {
    var k :| 0 <= k < |log| && RefusedAt(log[k], model, batch);
    assert RefusedAt(longer[k], model, batch);
  }

  /** Each of the models was asked about this fic alone, and did not settle it. */
  ghost predicate RefusedAlone(log: seq<Entry>, models: set<string>, url: string) {
    forall m :: m in models ==> Refused(log, m, [url])
  }

  lemma LossesStay(log: seq<Entry>, longer: seq<Entry>, models: set<string>, fewer: set<string>, fics: seq<string>, have: set<string>)
    requires log <= longer && fewer <= models
    requires forall u :: u in fics && u !in have ==> RefusedAlone(log, models, u)
    ensures forall u :: u in fics && u !in have ==> RefusedAlone(longer, fewer, u)
  {
    forall u, m | u in fics && u !in have && m in fewer ensures Refused(longer, m, [u]) {
      assert RefusedAlone(log, models, u);
      RefusedStays(log, longer, m, [u]);
    }
  }

  function Lacking(fics: seq<string>, have: set<string>): seq<string> {
    if fics == [] then []
    else
      var rest := Lacking(fics[..|fics| - 1], have);
      if fics[|fics| - 1] in have then rest else rest + [fics[|fics| - 1]]
  }

  lemma {:induction false} LackingIs(fics: seq<string>, have: set<string>)
    ensures |Lacking(fics, have)| <= |fics|
    ensures forall u :: u in Lacking(fics, have) <==> u in fics && u !in have
    ensures (exists u :: u in fics && u in have) ==> |Lacking(fics, have)| < |fics|
  {
    if fics != [] {
      LackingIs(fics[..|fics| - 1], have);
      assert fics == fics[..|fics| - 1] + [fics[|fics| - 1]];
    }
  }

  class Digest {
    const candidates: seq<string>
    const maxCalls: nat
    const tape: seq<Reply>
    var calls: nat
    var unavailable: set<string>
    ghost var log: seq<Entry>

    ghost predicate Valid()
      reads this
    {
      && NoDuplicates(candidates)
      && calls == |log| <= maxCalls <= |tape|
      && Sound(log, unavailable, tape)
    }

    /** Why a digest stops early: a project-wide failure, or every model retired for quota. */
    ghost predicate StopJustified()
      reads this
    {
      (log != [] && Fatal(log[|log| - 1])) || forall m :: m in candidates ==> m in unavailable
    }

    /** The models still in service. */
    ghost function Live(): set<string>
      reads this
    {
      Urls(candidates) - unavailable
    }

    /** While budget is left, a fic without a translation has been refused alone by every model in service. */
    ghost predicate LossesJustified(fics: seq<string>, have: set<string>)
      reads this
    {
      calls < maxCalls ==> forall u :: u in fics && u !in have ==> RefusedAlone(log, Live(), u)
    }

    constructor (candidates: seq<string>, fics: nat, tape: seq<Reply>)
      requires NoDuplicates(candidates) && Max(8, (fics + BATCH - 1) / BATCH + 8) <= |tape|
      ensures Valid() && log == [] && maxCalls == (fics + 7) / 8 + 8
    {
      this.candidates, this.tape := candidates, tape;
      maxCalls := Max(8, (fics + BATCH - 1) / BATCH + 8);
      calls, unavailable, log := 0, {}, [];
    }

    /** Spends one call on a model that has not been retired. */
    method Spend(model: string, batch: seq<string>, retryAllowed: bool) returns (reply: Reply, final: bool)
      requires Valid() && NoFatal(log) && calls < maxCalls && model !in unavailable
      modifies this`calls, this`log, this`unavailable
      ensures Valid() && log == old(log) + [Entry(model, batch, reply, final)]
      ensures final <==> reply.Failure? && !(retryAllowed && reply.retryable)
      ensures unavailable == old(unavailable) + If(final && reply.Failure? && reply.kind.Quota?, model)
    {
      reply := tape[calls];
      final := reply.Failure? && !(retryAllowed && reply.retryable);
      CallKeepsSound(log, unavailable, tape, Entry(model, batch, reply, final));
      calls := calls + 1;
      if final && reply.Failure? && reply.kind.Quota? {
        unavailable := unavailable + {model};
      }
      log := log + [Entry(model, batch, reply, final)];
    }

    /** Up to two tries: no reply when the budget is out, else the items or the final failure. */
    method AskModel(model: string, batch: seq<string>) returns (response: Option<seq<Item>>, error: Option<FailureKind>)
      requires Valid() && NoFatal(log) && model !in unavailable
      modifies this`calls, this`log, this`unavailable
      ensures Valid() && old(log) <= log
      ensures unavailable == old(unavailable) + If(error == Some(Quota), model)
      ensures if error in {Some(Authentication), Some(Transport)} then log != [] && Fatal(log[|log| - 1]) else NoFatal(log)
      ensures response.None? && error.None? ==> calls >= maxCalls
      ensures error.Some? ==> Refused(log, model, batch)
      ensures response.Some? && SettlesNone(response.value, batch) ==> Refused(log, model, batch)
      ensures forall k :: |old(log)| <= k < |log| ==> log[k].asked == batch && (log[k].reply.Items? ==> response == Some(log[k].reply.items))
      ensures response.Some? ==> error.None? && log != [] && log[|log| - 1].reply == Items(response.value)
    {
      response, error := None, None;
      if calls >= maxCalls {
        return;
      }
      var reply, final := Spend(model, batch, true);
      if reply.Failure? && !final {
        if calls >= maxCalls {
          return;
        }
        reply, final := Spend(model, batch, false);
      }
      match reply {
        case Items(items) => response := Some(items);
        case Failure(retryable, kind) => error := Some(kind);
      }
      ghost var last := log[|log| - 1];
      assert last.reply.Failure? || SettlesNone(last.reply.items, batch) ==> RefusedAt(last, model, batch);
    }

    /**
     Asks the models in turn until one settles something or a project-wide failure stops everything. A reply may
     settle nothing; the models that answered with a quota failure are counted.
     */
    method TryModels(active: seq<string>, subset: seq<string>) returns (kept: map<string, string>, quotaModels: nat, fatal: bool)
      requires Valid() && NoFatal(log)
      requires NoDuplicates(active) && forall m :: m in active ==> m !in unavailable
      modifies this`calls, this`log, this`unavailable
      ensures Valid() && old(log) <= log && old(unavailable) <= unavailable
      ensures kept.Keys <= Urls(subset) && AllAccepted(log, kept)
      ensures FatalTold(kept, fatal)
      ensures !fatal && kept == map[] && calls < maxCalls ==> forall m :: m in active ==> Refused(log, m, subset)
      ensures quotaModels == |Urls(active) * unavailable|
      ensures Caught(log, |old(log)|, Urls(subset), kept.Keys)
    {
      kept, quotaModels, fatal := map[], 0, false;
      NoneTried(active, unavailable);
      CaughtNothing(log, Urls(subset));
      var m := 0;
      while m < |active| && kept == map[] && !fatal
        invariant 0 <= m <= |active| && Valid() && old(log) <= log && old(unavailable) <= unavailable
        invariant kept.Keys <= Urls(subset) && AllAccepted(log, kept)
        invariant FatalTold(kept, fatal)
        invariant quotaModels == |Urls(active) * unavailable|
        invariant !fatal && kept == map[] ==> Trying(active, m, subset)
        invariant Caught(log, |old(log)|, Urls(subset), kept.Keys)
      {
        var quota := false;
        ghost var before := log;
        kept, quota, fatal := TryNext(active, m, subset);
        CaughtRest(before, log, |old(log)|, Urls(subset), {}, kept.Keys);
        if quota {
          quotaModels := quotaModels + 1;
        }
        m := m + 1;
      }
      if !fatal && kept == map[] && calls < maxCalls {
        AllTried(log, active, subset);
      }
    }

    lemma NoneTried(active: seq<string>, retired: set<string>)
      requires forall m :: m in active ==> m !in retired
      ensures InService(active, 0, retired) && |Urls(active) * retired| == 0
    {
      assert Urls(active) * retired == {};
    }

    lemma AllTried(log: seq<Entry>, active: seq<string>, batch: seq<string>)
      requires RefusedUpTo(log, active, |active|, batch)
      ensures forall m :: m in active ==> Refused(log, m, batch)
    {
    }

    /** A project-wide failure is the last call and leaves nothing kept; otherwise there was none. */
    ghost predicate FatalTold(kept: map<string, string>, fatal: bool)
      reads this
    {
      if fatal then kept == map[] && log != [] && Fatal(log[|log| - 1]) else NoFatal(log)
    }

    /** The first models have had their turn in vain, and the others are in service. */
    ghost predicate Trying(active: seq<string>, m: nat, subset: seq<string>)
      requires m <= |active|
      reads this
    {
      InService(active, m, unavailable) && (calls < maxCalls ==> RefusedUpTo(log, active, m, subset))
    }

    method TryNext(active: seq<string>, m: nat, subset: seq<string>) returns (kept: map<string, string>, quota: bool, fatal: bool)
      requires Valid() && NoFatal(log) && NoDuplicates(active) && m < |active| && Trying(active, m, subset)
      modifies this`calls, this`log, this`unavailable
      ensures Valid() && old(log) <= log && old(unavailable) <= unavailable
      ensures kept.Keys <= Urls(subset) && AllAccepted(log, kept)
      ensures FatalTold(kept, fatal)
      ensures |Urls(active) * unavailable| == |Urls(active) * old(unavailable)| + if quota then 1 else 0
      ensures !fatal && kept == map[] ==> Trying(active, m + 1, subset)
      ensures Caught(log, |old(log)|, Urls(subset), kept.Keys)
    {
      kept, quota, fatal := TryModel(active[m], subset);
      NextInService(active, m, old(unavailable), quota);
      NextRefused(old(log), log, active, m, subset);
      RetiredCount(active, active[m], old(unavailable), quota);
    }

    ghost predicate InService(active: seq<string>, m: nat, retired: set<string>) {
      forall k :: m <= k < |active| ==> active[k] !in retired
    }

    lemma NextInService(active: seq<string>, m: nat, retired: set<string>, quota: bool)
      requires NoDuplicates(active) && m < |active| && InService(active, m, retired)
      ensures InService(active, m + 1, retired + If(quota, active[m]))
    {
      assert forall k :: m < k < |active| ==> active[k] != active[m];
    }

    ghost predicate RefusedUpTo(log: seq<Entry>, active: seq<string>, m: nat, batch: seq<string>)
      requires m <= |active|
    {
      forall k :: 0 <= k < m ==> Refused(log, active[k], batch)
    }

    lemma NextRefused(before: seq<Entry>, log: seq<Entry>, active: seq<string>, m: nat, batch: seq<string>)
      requires before <= log && m < |active|
      ensures RefusedUpTo(before, active, m, batch) && Refused(log, active[m], batch) ==> RefusedUpTo(log, active, m + 1, batch)
    {
      forall k | 0 <= k < m && Refused(before, active[k], batch) ensures Refused(log, active[k], batch) {
        RefusedStays(before, log, active[k], batch);
      }
    }

    lemma RetiredCount(active: seq<string>, model: string, retired: set<string>, quota: bool)
      requires model in active && model !in retired
      ensures |Urls(active) * (retired + If(quota, model))| == |Urls(active) * retired| + if quota then 1 else 0
    {
      assert Urls(active) * (retired + If(quota, model)) == Urls(active) * retired + If(quota, model);
    }

    /** One model's turn: what its reply settles, and how it failed. */
    method TryModel(model: string, subset: seq<string>) returns (kept: map<string, string>, quota: bool, fatal: bool)
      requires Valid() && NoFatal(log) && model !in unavailable
      modifies this`calls, this`log, this`unavailable
      ensures Valid() && old(log) <= log && unavailable == old(unavailable) + If(quota, model)
      ensures kept.Keys <= Urls(subset) && AllAccepted(log, kept)
      ensures FatalTold(kept, fatal)
      ensures !fatal && kept == map[] && calls < maxCalls ==> Refused(log, model, subset)
      ensures Caught(log, |old(log)|, Urls(subset), kept.Keys)
    {
      kept, quota, fatal := map[], false, false;
      var response, error := AskModel(model, subset);
      if error.Some? {
        quota, fatal := error.value.Quota?, error.value.Authentication? || error.value.Transport?;
      } else if response.Some? {
        kept := KeepAccepted(response.value, subset);
        KeptNone(response.value, subset);
      }
      ReplyCaught(log, |old(log)|, subset, response, kept);
    }

    lemma ReplyCaught(log: seq<Entry>, from: nat, subset: seq<string>, response: Option<seq<Item>>, kept: map<string, string>)
      requires forall k :: from <= k < |log| ==> log[k].asked == subset && (log[k].reply.Items? ==> response == Some(log[k].reply.items))
      requires response.Some? ==> kept == Kept(response.value, Urls(subset))
      ensures Caught(log, from, Urls(subset), kept.Keys)
    {
      forall url | Answered(log, from, url) ensures url in kept {
        KeptIff(response.value, Urls(subset), url);
      }
    }

    /**
     Translates a batch within the budget. An accepted item settles its fic; the rest is retried as a smaller
     batch; a batch no model can serve is halved. The flag asks the caller to stop everything.
     */
    method TranslateSubset(subset: seq<string>) returns (result: map<string, string>, stop: bool)
      requires Valid() && NoFatal(log)
      modifies this`calls, this`log, this`unavailable
      ensures Valid() && old(log) <= log && old(unavailable) <= unavailable
      ensures result.Keys <= Urls(subset) && AllAccepted(log, result)
      ensures if stop then StopJustified() else NoFatal(log)
      ensures !stop ==> LossesJustified(subset, result.Keys)
      ensures Caught(log, |old(log)|, Urls(subset), result.Keys)
      decreases |subset|
    {
      result, stop := map[], false;
      if subset == [] || calls >= maxCalls {
        return;
      }
      var active := Available();
      var kept, quotaModels, fatal := TryModels(active, subset);
      if fatal {
        return map[], true;
      }
      ghost var tried := log;
      if kept != map[] {
        result, stop := Settle(subset, kept);
        CaughtRest(tried, log, |old(log)|, Urls(subset), kept.Keys, result.Keys);
        return;
      }
      var left' := Available();
      if active != [] && quotaModels == |active| && left' == [] {
        return map[], true;
      }
      if |subset| > 1 && calls < maxCalls {
        result, stop := Halves(subset);
        CaughtRest(tried, log, |old(log)|, Urls(subset), {}, result.Keys);
      } else if |subset| == 1 {
        assert subset == [subset[0]];
      }
    }

    /** Retries what the settled items leave open, while there is budget. */
    method Settle(subset: seq<string>, kept: map<string, string>) returns (result: map<string, string>, stop: bool)
      requires Valid() && NoFatal(log)
      requires kept != map[] && kept.Keys <= Urls(subset) && AllAccepted(log, kept)
      modifies this`calls, this`log, this`unavailable
      ensures Valid() && old(log) <= log && old(unavailable) <= unavailable
      ensures result.Keys <= Urls(subset) && AllAccepted(log, result) && kept.Keys <= result.Keys
      ensures if stop then StopJustified() else NoFatal(log)
      ensures !stop ==> LossesJustified(subset, result.Keys)
      ensures Caught(log, |old(log)|, Urls(subset), result.Keys)
      decreases |subset|, 0
    {
      result, stop := kept, false;
      var missing := Lacking(subset, kept.Keys);
      FewerLack(subset, kept);
      if missing != [] && calls < maxCalls {
        var extra, halt := TranslateSubset(missing);
        AcceptedStays(old(log), log, kept);
        result, stop := kept + extra, halt;
        CaughtMore(log, |old(log)|, Urls(missing), Urls(subset), extra.Keys, result.Keys);
      }
    }

    lemma FewerLack(subset: seq<string>, kept: map<string, string>)
      requires kept != map[] && kept.Keys <= Urls(subset)
      ensures |Lacking(subset, kept.Keys)| < |subset|
      ensures forall u :: u in Lacking(subset, kept.Keys) <==> u in subset && u !in kept.Keys
    {
      LackingIs(subset, kept.Keys);
      var u :| u in kept;
      assert u in Urls(subset);
    }

    /** Isolates blocked items by translating the two halves, unless the first one asks to stop. */
    method Halves(subset: seq<string>) returns (result: map<string, string>, stop: bool)
      requires Valid() && NoFatal(log) && |subset| > 1
      modifies this`calls, this`log, this`unavailable
      ensures Valid() && old(log) <= log && old(unavailable) <= unavailable
      ensures result.Keys <= Urls(subset) && AllAccepted(log, result)
      ensures if stop then StopJustified() else NoFatal(log)
      ensures !stop ==> LossesJustified(subset, result.Keys)
      ensures Caught(log, |old(log)|, Urls(subset), result.Keys)
      decreases |subset|, 1
    {
      var middle := |subset| / 2;
      var left' := map[];
      left', stop := TranslateSubset(subset[..middle]);
      result := left';
      ghost var half := log;
      CaughtMore(log, |old(log)|, Urls(subset[..middle]), Urls(subset), left'.Keys, left'.Keys);
      if !stop {
        result, stop := RightHalf(subset, middle, left');
        CaughtRest(half, log, |old(log)|, Urls(subset), left'.Keys, result.Keys);
      }
    }

    method RightHalf(subset: seq<string>, middle: nat, known: map<string, string>) returns (result: map<string, string>, stop: bool)
      requires Valid() && NoFatal(log) && 0 < middle < |subset|
      requires known.Keys <= Urls(subset) && AllAccepted(log, known) && LossesJustified(subset[..middle], known.Keys)
      modifies this`calls, this`log, this`unavailable
      ensures Valid() && old(log) <= log && old(unavailable) <= unavailable
      ensures result.Keys <= Urls(subset) && AllAccepted(log, result)
      ensures if stop then StopJustified() else NoFatal(log)
      ensures !stop ==> LossesJustified(subset, result.Keys)
      ensures known.Keys <= result.Keys && Caught(log, |old(log)|, Urls(subset), result.Keys)
      decreases |subset|, 0
    {
      var right := map[];
      right, stop := TranslateSubset(subset[middle..]);
      AcceptedStays(old(log), log, known);
      result := known + right;
      CaughtMore(log, |old(log)|, Urls(subset[middle..]), Urls(subset), right.Keys, result.Keys);
      if calls < maxCalls {
        LossesStay(old(log), log, old(Live()), Live(), subset[..middle], known.Keys);
      }
      assert subset == subset[..middle] + subset[middle..];
    }

    method Available() returns (models: seq<string>)
      requires NoDuplicates(candidates)
      ensures NoDuplicates(models) && forall m :: m in models <==> m in candidates && m !in unavailable
    {
      models := [];
      for i := 0 to |candidates|
        invariant NoDuplicates(models) && forall m :: m in models <==> m in candidates[..i] && m !in unavailable
      {
        assert candidates[..i + 1] == candidates[..i] + [candidates[i]];
        if candidates[i] !in unavailable {
          models := models + [candidates[i]];
        }
      }
      assert candidates[..|candidates|] == candidates;
    }

    method KeepAccepted(items: seq<Item>, subset: seq<string>) returns (kept: map<string, string>)
      requires log != [] && log[|log| - 1].reply == Items(items)
      ensures kept == Kept(items, Urls(subset)) && kept.Keys <= Urls(subset) && AllAccepted(log, kept)
    {
      kept := map[];
      for i := 0 to |items|
        invariant kept == Kept(items[..i], Urls(subset))
      {
        assert items[..i + 1][..i] == items[..i];
        if items[i].url in Urls(subset) && items[i].accepted {
          kept := kept[items[i].url := items[i].summary];
        }
      }
      assert items[..|items|] == items;
      KeptIsAccepted(items, Urls(subset));
      forall url | url in kept ensures GateAccepted(log, url, kept[url]) {
        assert LastAccepted(log[|log| - 1].reply.items, url, kept[url]);
      }
    }

    /**
     The whole digest: one entry per fic, gate-accepted or fallback, within the call budget. While budget is left
     and nothing asked to stop, a fallback means every model in service refused that fic alone.
     */
    method Summarize(fics: seq<string>) returns (summaries: map<string, Summary>)
      requires Valid() && log == []
      modifies this`calls, this`log, this`unavailable
      ensures Valid() && |log| <= maxCalls
      ensures summaries.Keys == Urls(fics)
      ensures forall url :: url in summaries && summaries[url].Accepted? ==> GateAccepted(log, url, summaries[url].text)
      ensures StopJustified() || FallbacksJustified(summaries, fics)
      ensures NoDuplicates(fics) ==> forall url :: Answered(log, 0, url) ==> url in summaries && summaries[url].Accepted?
    {
      var translated: map<string, Summary> := map[];
      var offset, stop := 0, false;
      while offset < |fics| && !stop
        invariant Valid() && 0 <= offset <= |fics|
        invariant AcceptedOrFallback(translated)
        invariant if stop then StopJustified() else NoFatal(log)
        invariant !stop ==> translated.Keys == Urls(fics[..offset]) && FallbacksJustified(translated, fics[..offset])
        invariant NoDuplicates(fics) ==> Caught(log, 0, Urls(fics[..offset]), Translated(translated))
        decreases |fics| - offset
      {
        ghost var before, known := log, Translated(translated);
        var end := Min(|fics|, offset + BATCH);
        assert fics[..end] == fics[..offset] + fics[offset..end];
        translated, stop := AddBatch(translated, fics[..offset], fics[offset..end], fics[end..]);
        if NoDuplicates(fics) {
          PartsApart(fics, offset, end);
          CaughtMore(before, 0, Urls(fics[..offset]), Urls(fics[..end]), known, known);
          CaughtMore(log, |before|, Urls(fics[offset..end]), Urls(fics[..end]), Translated(translated), Translated(translated));
          CaughtRest(before, log, 0, Urls(fics[..end]), known, Translated(translated));
        }
        offset := end;
      }
      assert fics[..|fics|] == fics;
      summaries := map u | u in fics :: if u in translated then translated[u] else Fallback;
      if NoDuplicates(fics) {
        AnswersReach(fics, offset, translated);
      }
    }

    lemma AnswersReach(fics: seq<string>, offset: nat, translated: map<string, Summary>)
      requires offset <= |fics| && Caught(log, 0, Urls(fics[..offset]), Translated(translated))
      ensures forall url :: Answered(log, 0, url) ==> url in fics && url in translated && translated[url].Accepted?
    {
      forall url | Answered(log, 0, url) ensures url in fics && url in translated && translated[url].Accepted? {
        var k :| 0 <= k < |log| && url in log[k].asked && log[k].reply.Items? && Accepts(log[k].reply.items, url);
        assert url in Urls(log[k].asked) && url in Urls(fics[..offset]);
      }
    }

    /** One batch: what it translates, fallbacks for what it misses, and for everything left when it stops. */
    method AddBatch(known: map<string, Summary>, ghost before: seq<string>, batch: seq<string>, after: seq<string>)
      returns (translated: map<string, Summary>, stop: bool)
      requires Valid() && NoFatal(log) && AcceptedOrFallback(known)
      requires known.Keys == Urls(before) && FallbacksJustified(known, before)
      modifies this`calls, this`log, this`unavailable
      ensures Valid() && old(log) <= log && AcceptedOrFallback(translated)
      ensures translated.Keys == Urls(before + batch) + if stop then Urls(after) else {}
      ensures if stop then StopJustified() else NoFatal(log)
      ensures !stop ==> FallbacksJustified(translated, before + batch)
      ensures Urls(before) !! Urls(batch) && Urls(before + batch) !! Urls(after) ==>
                Translated(known) <= Translated(translated) && Caught(log, |old(log)|, Urls(batch), Translated(translated))
    {
      var result: map<string, string> := map[];
      result, stop := TranslateSubset(batch);
      FallbackStays(old(log), known);
      var open := Lacking(batch, result.Keys) + if stop then after else [];
      translated := Extended(known, result, open);
      ExtendedIs(known, result, open);
      BatchKeys(before, batch, result, if stop then after else []);
      if Urls(before) !! Urls(batch) && Urls(before + batch) !! Urls(after) {
        OpenIsApart(before, batch, after, known, result, open, stop);
        CaughtMore(log, |old(log)|, Urls(batch), Urls(batch), result.Keys, Translated(translated));
      }
      if !stop && calls < maxCalls {
        LossesStay(old(log), log, old(Live()), Live(), before, Translated(known));
        LossesCombine(before, Translated(known), batch, result.Keys, Translated(translated));
      }
    }

    /** What gets a fallback was neither translated before nor now. */
    lemma OpenIsApart(before: seq<string>, batch: seq<string>, after: seq<string>, known: map<string, Summary>, result: map<string, string>,
                      open: seq<string>, stop: bool)
      requires Urls(before) !! Urls(batch) && Urls(before + batch) !! Urls(after) && known.Keys == Urls(before) && result.Keys <= Urls(batch)
      requires open == Lacking(batch, result.Keys) + if stop then after else []
      requires Translated(Extended(known, result, open)) == Translated(known) + result.Keys - Urls(open)
      ensures Translated(known) <= Translated(Extended(known, result, open)) && result.Keys <= Translated(Extended(known, result, open))
    {
      LackingIs(batch, result.Keys);
      forall u | u in open ensures u !in Urls(before) && u !in result.Keys {
        assert u in Urls(batch) || u in Urls(after);
        assert Urls(before) <= Urls(before + batch) && Urls(batch) <= Urls(before + batch);
      }
    }

    lemma PartsApart(fics: seq<string>, offset: nat, end: nat)
      requires NoDuplicates(fics) && offset <= end <= |fics|
      ensures Urls(fics[..offset]) !! Urls(fics[offset..end]) && Urls(fics[..offset] + fics[offset..end]) !! Urls(fics[end..])
      ensures Urls(fics[..offset]) <= Urls(fics[..end]) && Urls(fics[offset..end]) <= Urls(fics[..end])
    {
      forall i, j | 0 <= i < offset && offset <= j < end ensures fics[i] != fics[j] {
      }
      assert fics[..offset] + fics[offset..end] == fics[..end];
    }

    lemma BatchKeys(before: seq<string>, batch: seq<string>, result: map<string, string>, after: seq<string>)
      requires result.Keys <= Urls(batch)
      ensures var open := Lacking(batch, result.Keys) + after;
        && Urls(before) + result.Keys + Urls(open) == Urls(before + batch) + Urls(after)
        && (after == [] ==> forall u :: u in Urls(open) <==> u in batch && u !in result.Keys)
    {
      LackingIs(batch, result.Keys);
    }

    lemma LossesCombine(before: seq<string>, known: set<string>, batch: seq<string>, kept: set<string>, have: set<string>)
      requires LossesJustified(before, known) && LossesJustified(batch, kept)
      requires forall u :: u in known + kept && (u in batch ==> u in kept) ==> u in have
      ensures LossesJustified(before + batch, have)
    {
    }

    lemma ExtendedIs(known: map<string, Summary>, result: map<string, string>, missing: seq<string>)
      requires AcceptedOrFallback(known) && AllAccepted(log, result)
      ensures AcceptedOrFallback(Extended(known, result, missing))
      ensures Extended(known, result, missing).Keys == known.Keys + result.Keys + Urls(missing)
      ensures Translated(Extended(known, result, missing)) == Translated(known) + result.Keys - Urls(missing)
    {
    }

    /** The fics with a translation. */
    ghost function Translated(summaries: map<string, Summary>): set<string> {
      set u | u in summaries && summaries[u].Accepted?
    }

    ghost predicate FallbacksJustified(summaries: map<string, Summary>, fics: seq<string>)
      reads this
    {
      LossesJustified(fics, Translated(summaries))
    }

    function Extended(known: map<string, Summary>, result: map<string, string>, missing: seq<string>): map<string, Summary> {
      known + (map u | u in result :: Accepted(result[u])) + (map u | u in missing :: Fallback)
    }

    ghost predicate AcceptedOrFallback(translated: map<string, Summary>)
      reads this
    {
      forall u :: u in translated && translated[u].Accepted? ==> GateAccepted(log, u, translated[u].text)
    }

    lemma FallbackStays(before: seq<Entry>, translated: map<string, Summary>)
      requires before <= log
      requires forall u :: u in translated && translated[u].Accepted? ==> GateAccepted(before, u, translated[u].text)
      ensures AcceptedOrFallback(translated)
    {
      var accepted := map u | u in translated && translated[u].Accepted? :: translated[u].text;
      AcceptedStays(before, log, accepted);
    }
  }
}
