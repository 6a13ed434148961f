/** The receipt transactions as the code runs them, statement by statement, on the tables of module
    Receipts and, where one enqueues a job, the queue. A transaction that fails puts the tables back as it found them. */
module ReceiptStore {
  import opened Base
  import opened Receipts
  import Queue = WorkQueue

  /** The review deadline has passed. */
  predicate Due(r: Rec, now: Time) {
    r.state.ReviewRequired? && r.reviewExpiresAt.Some? && r.reviewExpiresAt.value <= now
  }

  function WithLog(db: Db, sub: SubId, log: seq<Correction>): Db
    requires sub in db.recs
  {
    db.(recs := db.recs[sub := db.recs[sub].(corrections := db.recs[sub].corrections + log)])
  }

  lemma WithLogChains(db: Db, sub: SubId, a: seq<Correction>, b: seq<Correction>)
    requires sub in db.recs
    ensures WithLog(db, sub, []) == db
    ensures WithLog(WithLog(db, sub, a), sub, b) == WithLog(db, sub, a + b)
  {
    assert db.recs[sub].corrections + [] == db.recs[sub].corrections;
    assert db.recs[sub := db.recs[sub]] == db.recs;
    assert db.recs[sub].corrections + a + b == db.recs[sub].corrections + (a + b);
    assert WithLog(WithLog(db, sub, a), sub, b).recs == WithLog(db, sub, a + b).recs;
  }

  function Edited(db: Db, sub: SubId, before: Fields, draft: Draft): Db
    requires sub in db.recs
  {
    var r := db.recs[sub];
    db.(recs := db.recs[sub := r.(draft := Some(draft), corrections := r.corrections + Corrections(before, draft.fields), edits := r.edits + 1)])
  }

  function AsNumber(v: Option<int>): Option<Value> { if v.Some? then Some(Number(v.value)) else None }

  function AsText(v: Option<string>): Option<Value> { if v.Some? then Some(Text(v.value)) else None }

  /** A given value is the field's new one, and an absent one leaves the field as it was. */
  predicate Takes<V(==)>(given: Option<V>, was: V, now: V) { if given.Some? then now == given.value else now == was }

  /** `g` is `f` with what the patch gives, the merchant trimmed. */
  predicate TakesPatch(f: Fields, p: Patch, g: Fields) {
    && Takes(p.amount, f.amount, g.amount) && Takes(p.currency, f.currency, g.currency)
    && Takes(if p.merchant.Some? then Some(Trim(p.merchant.value)) else None, f.merchant, g.merchant)
    && Takes(p.category, f.category, g.category) && Takes(p.occurredAt, f.occurredAt, g.occurredAt) && Takes(p.kind, f.kind, g.kind)
  }

  /** One entry, for a given value that differs from the old one. */
  function Entry(name: FieldName, was: Value, given: Option<Value>): seq<Correction> {
    if given.Some? && given.value != was then [Correction(name, was, given.value)] else []
  }

  /** What the patch changes, field by field. */
  function Entries(f: Fields, p: Patch): seq<Correction> {
    Entry(AmountField, Number(f.amount), AsNumber(p.amount)) + Entry(CurrencyField, Text(f.currency), AsText(p.currency))
    + Entry(MerchantField, Text(f.merchant), if p.merchant.Some? then Some(Text(Trim(p.merchant.value))) else None)
    + Entry(CategoryField, Text(f.category), AsText(p.category)) + Entry(OccurredField, Number(f.occurredAt), AsNumber(p.occurredAt))
    + Entry(KindField, Text(f.kind), AsText(p.kind))
  }

  lemma EntryIs(before: Fields, after: Fields, name: FieldName, given: Option<Value>)
    requires Get(after, name) == if given.Some? then given.value else Get(before, name)
    ensures CorrectionOf(before, after, name) == Entry(name, Get(before, name), given)
  {
  }

  lemma PatchIsTaken(f: Fields, p: Patch)
    ensures TakesPatch(f, p, Patched(f, p)) && Corrections(f, Patched(f, p)) == Entries(f, p)
  {
    var g := Patched(f, p);
    EntryIs(f, g, AmountField, AsNumber(p.amount));
    EntryIs(f, g, CurrencyField, AsText(p.currency));
    EntryIs(f, g, MerchantField, if p.merchant.Some? then Some(Text(Trim(p.merchant.value))) else None);
    EntryIs(f, g, CategoryField, AsText(p.category));
    EntryIs(f, g, OccurredField, AsNumber(p.occurredAt));
    EntryIs(f, g, KindField, AsText(p.kind));
  }

  /** The ids of a submission and its account, written out as UUIDs. */
  datatype Texts = Texts(sub: string, account: string)

  function ExtractRequest(sub: SubId, texts: Texts, now: Time): Queue.EnqueueRequest {
    Queue.EnqueueRequest("receipt.extract", 1, Some(sub), "receipt.extract:" + texts.sub, Some("receipt:" + texts.account), 0, now, 10)
  }

  lemma ExtractRequestIsValid(sub: SubId, texts: Texts, now: Time)
    requires |texts.sub| == 36 && |texts.account| == 36
    ensures Queue.ValidRequest(ExtractRequest(sub, texts, now))
  {
    var r := ExtractRequest(sub, texts, now);
    assert r.jobType[0] == 'r' && r.dedupeKey[0] == 'r' && r.serKey.value[0] == 'r';
    assert 'r' in r.jobType && 'r' in r.dedupeKey && 'r' in r.serKey.value;
  }

  predicate OwnedBy(db: Db, sub: SubId, account: AccountId) { sub in db.recs && db.recs[sub].account == account }

  /** The submission awaits review, and its draft is at the version the caller saw. */
  predicate UnderReview(db: Db, sub: SubId, version: int) {
    sub in db.recs && db.recs[sub].state == ReviewRequired && db.recs[sub].draft.Some? && db.recs[sub].draft.value.version == version
  }

  predicate Unacceptable(p: Patch, categories: set<string>) {
    || (p.amount.Some? && p.amount.value <= 0)
    || (p.currency.Some? && !(|p.currency.value| == 3 && forall c :: c in p.currency.value ==> 'A' <= c <= 'Z'))
    || (p.merchant.Some? && (Trim(p.merchant.value) == "" || |Trim(p.merchant.value)| > 200))
    || (p.category.Some? && p.category.value !in categories)
    || (p.kind.Some? && p.kind.value !in {"expense", "income", "refund", "transfer", "adjustment"})
  }

  lemma UnacceptableIs(p: Patch, categories: set<string>)
    ensures Unacceptable(p, categories) <==> !ValidPatch(p, categories)
  {
    if p.currency.Some? && |p.currency.value| == 3 {
      var c := p.currency.value;
      assert forall i :: 0 <= i < 3 ==> c[i] in c;
      assert forall x :: x in c ==> exists i :: 0 <= i < 3 && c[i] == x;
    }
  }

  class ReceiptStore {
    var db: Db
    var jobs: Queue.Jobs

    method ConfirmReview(sub: SubId, account: AccountId, draftVersion: int, newId: ExpId) returns (r: Result<ExpId, ErrorClass>)
      requires Inv(db) && newId !in db.expenses
      modifies this`db
      ensures var step := Confirm(sub, account, draftVersion, newId);
        db == Effect(old(db), step) && (r.Ok? <==> Outcome(old(db), step).Ok?) && (r.Err? ==> Outcome(old(db), step) == Err(r.error))
      ensures r.Ok? ==> sub in db.recs && db.recs[sub].expense == Some(r.value) && db.recs[sub].state.Confirmed?
      ensures !OwnedBy(old(db), sub, account) ==> r == Err(NotFound)
      ensures OwnedBy(old(db), sub, account) ==>
        if old(db).recs[sub].state == Confirmed then r.Ok? && db == old(db)
        else if UnderReview(old(db), sub, draftVersion)
        then r == Ok(newId) && db.expenses == old(db).expenses[newId := Expense(account, old(db).recs[sub].draft.value.fields, Some(sub), Settled)]
        else r == Err(Conflict)
    {
      if sub !in db.recs || db.recs[sub].account != account {
        return Err(NotFound);
      }
      var row := db.recs[sub];
      if row.state.Confirmed? {
        if row.expense.None? {
          return Err(Dependency);
        }
        return Ok(row.expense.value);
      }
      if !row.state.ReviewRequired? {
        return Err(Conflict);
      }
      if row.draft.None? {
        return Err(NotFound);
      }
      if row.draft.value.version != draftVersion {
        return Err(Conflict);
      }
      NoExpenseYet(db, sub);
      db := db.(expenses := db.expenses[newId := Expense(account, row.draft.value.fields, Some(sub), Settled)]);
      db := db.(recs := db.recs[sub := row.(state := Confirmed, version := row.version + 1, failure := None, expense := Some(newId))]);
      return Ok(newId);
    }

    method RejectReview(sub: SubId, account: AccountId, draftVersion: int) returns (r: Result<(), ErrorClass>)
      modifies this`db
      ensures var step := Reject(sub, account, draftVersion);
        db == Effect(old(db), step) && r == (if Outcome(old(db), step).Ok? then Ok(()) else Err(Outcome(old(db), step).error))
      ensures r.Ok? ==> sub in db.recs && db.recs[sub].state.Rejected?
      ensures r == if !OwnedBy(old(db), sub, account) then Err(NotFound)
                   else if old(db).recs[sub].state == Rejected || UnderReview(old(db), sub, draftVersion) then Ok(())
                   else if old(db).recs[sub].state == ReviewRequired && old(db).recs[sub].draft.None? then Err(NotFound) else Err(Conflict)
    {
      if sub !in db.recs || db.recs[sub].account != account {
        return Err(NotFound);
      }
      var row := db.recs[sub];
      if row.state.Rejected? {
        return Ok(());
      }
      if !row.state.ReviewRequired? {
        return Err(Conflict);
      }
      if row.draft.None? {
        return Err(NotFound);
      }
      if row.draft.value.version != draftVersion {
        return Err(Conflict);
      }
      db := db.(recs := db.recs[sub := row.(state := Rejected, version := row.version + 1, failure := None)]);
      return Ok(());
    }

    /** One field of an edit: a changed value goes into the correction log and the next draft. The
        ghost parameters are the tables the edit found, its log so far and the draft it is to give. */
    method CorrectField(sub: SubId, before: Fields, next: Fields, field: FieldName, value: Option<Value>,
                        ghost found: Db, ghost log: seq<Correction>, ghost target: Fields)
      returns (changed: Fields)
      requires sub in found.recs && db == WithLog(found, sub, log) && Get(next, field) == Get(before, field)
      requires Get(target, field) == if value.Some? then value.value else Get(before, field)
      modifies this`db
      ensures db == WithLog(found, sub, log + CorrectionOf(before, target, field))
      ensures changed == Put(next, field, Get(target, field))
    {
      changed := next;
      assert log + [] == log;
      WithLogChains(found, sub, log, CorrectionOf(before, target, field));
      if value.Some? && value.value != Get(before, field) {
        var row := db.recs[sub];
        db := db.(recs := db.recs[sub := row.(corrections := row.corrections + [Correction(field, Get(before, field), value.value)])]);
        changed := Put(next, field, value.value);
      }
    }

    /** The six fields in turn, each change logged against the draft as it was. */
    method CorrectFields(sub: SubId, before: Fields, patch: Patch) returns (next: Fields)
      requires sub in db.recs
      modifies this`db
      ensures next == Patched(before, patch)
      ensures db == WithLog(old(db), sub, Corrections(before, Patched(before, patch)))
    {
      ghost var found, target := db, Patched(before, patch);
      next := CorrectFirstFields(sub, before, patch);
      ghost var log := CorrectionOf(before, target, AmountField) + CorrectionOf(before, target, CurrencyField)
                       + CorrectionOf(before, target, MerchantField);
      next := CorrectField(sub, before, next, CategoryField, AsText(patch.category), found, log, target);
      log := log + CorrectionOf(before, target, CategoryField);
      next := CorrectField(sub, before, next, OccurredField, AsNumber(patch.occurredAt), found, log, target);
      log := log + CorrectionOf(before, target, OccurredField);
      next := CorrectField(sub, before, next, KindField, AsText(patch.kind), found, log, target);
    }

    /** Amount, currency and merchant. */
    method CorrectFirstFields(sub: SubId, before: Fields, patch: Patch) returns (next: Fields)
      requires sub in db.recs
      modifies this`db
      ensures var target := Patched(before, patch);
        && next == before.(amount := target.amount, currency := target.currency, merchant := target.merchant)
        && db == WithLog(old(db), sub, CorrectionOf(before, target, AmountField) + CorrectionOf(before, target, CurrencyField)
                                       + CorrectionOf(before, target, MerchantField))
    {
      ghost var found, target := db, Patched(before, patch);
      WithLogChains(db, sub, [], []);
      next := CorrectField(sub, before, before, AmountField, AsNumber(patch.amount), found, [], target);
      ghost var log := CorrectionOf(before, target, AmountField);
      assert [] + log == log;
      next := CorrectField(sub, before, next, CurrencyField, AsText(patch.currency), found, log, target);
      log := log + CorrectionOf(before, target, CurrencyField);
      var merchant := if patch.merchant.Some? then Some(Trim(patch.merchant.value)) else None;
      next := CorrectField(sub, before, next, MerchantField, AsText(merchant), found, log, target);
    }

    method EditDraft(sub: SubId, account: AccountId, draftVersion: int, patch: Patch) returns (r: Result<Draft, ErrorClass>)
      requires sub in db.recs ==> RecOk(db.recs[sub], db.categories)
      modifies this`db
      ensures var step := Edit(sub, account, draftVersion, patch);
        db == Effect(old(db), step) && (r.Ok? <==> Outcome(old(db), step).Ok?) && (r.Err? ==> Outcome(old(db), step) == Err(r.error))
      ensures r.Ok? ==> sub in db.recs && db.recs[sub].draft == Some(r.value)
      ensures r.Err? <==> !OwnedBy(old(db), sub, account) || !UnderReview(old(db), sub, draftVersion) || Unacceptable(patch, old(db).categories)
      ensures r.Err? ==> r.error == if !OwnedBy(old(db), sub, account) then NotFound
                                    else if !UnderReview(old(db), sub, draftVersion) then Conflict else Validation
      ensures r.Ok? ==> sub in old(db).recs && old(db).recs[sub].draft.Some? && old(db).recs[sub].draft.value.version == draftVersion
      ensures r.Ok? ==> r.value.version == draftVersion + 1 && TakesPatch(old(db).recs[sub].draft.value.fields, patch, r.value.fields)
      ensures r.Ok? ==> db.recs[sub].corrections == old(db).recs[sub].corrections + Entries(old(db).recs[sub].draft.value.fields, patch)
    {
      if sub !in db.recs || db.recs[sub].account != account {
        return Err(NotFound);
      }
      var row := db.recs[sub];
      if !row.state.ReviewRequired? {
        return Err(Conflict);
      }
      if row.draft.None? {
        return Err(NotFound);
      }
      if row.draft.value.version != draftVersion {
        return Err(Conflict);
      }
      var before := row.draft.value.fields;
      PatchIsTaken(before, patch);
      UnacceptableIs(patch, db.categories);
      if (patch.amount.Some? && patch.amount.value <= 0)
         || (patch.currency.Some? && !ValidCurrency(patch.currency.value))
         || (patch.merchant.Some? && !ValidMerchant(patch.merchant.value))
         || (patch.category.Some? && patch.category.value !in db.categories) {
        return Err(Validation);
      }
      EditCommitted(db, Edit(sub, account, draftVersion, patch));
      r := WriteEdit(sub, before, draftVersion, patch);
    }

    /** The writes of an edit. The transaction type is looked at last, when the other corrections are
        already logged: refusing it rolls them back. */
    method WriteEdit(sub: SubId, before: Fields, draftVersion: int, patch: Patch) returns (r: Result<Draft, ErrorClass>)
      requires sub in db.recs && Patched(before, patch).category in db.categories
      modifies this`db
      ensures r == if patch.kind.Some? && !ValidKind(patch.kind.value) then Err(Validation)
                   else Ok(Draft(Patched(before, patch), draftVersion + 1))
      ensures db == if r.Ok? then Edited(old(db), sub, before, r.value) else old(db)
    {
      var saved := db;
      var next := CorrectFields(sub, before, patch);
      if patch.kind.Some? && !ValidKind(patch.kind.value) {
        db := saved;
        return Err(Validation);
      }
      if next.category !in db.categories {
        assert false;
      }
      var updated := Draft(next, draftVersion + 1);
      db := db.(recs := db.recs[sub := db.recs[sub].(draft := Some(updated), edits := db.recs[sub].edits + 1)]);
      assert db.recs == saved.recs[sub := db.recs[sub]];
      return Ok(updated);
    }

    /** Every candidate expires, as the step `Expire` has it, and nothing else changes. */
    method ExpireReviews(limit: int, now: Time, candidates: seq<SubId>) returns (r: Result<nat, ErrorClass>)
      requires limit > 0 ==> |candidates| <= limit && forall i :: 0 <= i < |candidates| ==> candidates[i] in db.recs && Due(db.recs[candidates[i]], now)
      requires forall i, k :: 0 <= i < k < |candidates| ==> candidates[i] != candidates[k]
      modifies this`db
      ensures limit <= 0 ==> r == Err(Validation) && db == old(db)
      ensures limit > 0 ==> r == Ok(|candidates|) && db.recs.Keys == old(db).recs.Keys && db.expenses == old(db).expenses
      ensures limit > 0 ==> forall sub :: sub in db.recs ==>
        if sub in candidates
        then Ok(db.recs[sub]) == RecEffect(old(db), old(db).recs[sub], Expire(sub, old(db).recs[sub].account, now)) && db.recs[sub].state == Expired
        else db.recs[sub] == old(db).recs[sub]
    {
      if limit <= 0 {
        return Err(Validation);
      }
      var expired := 0;
      for n := 0 to |candidates|
        invariant expired == n
        invariant db == old(db).(recs := db.recs) && db.recs.Keys == old(db).recs.Keys
        invariant forall sub :: sub in db.recs ==>
          if sub in candidates[..n]
          then db.recs[sub] == old(db).recs[sub].(state := Expired, version := old(db).recs[sub].version + 1, failure := None)
          else db.recs[sub] == old(db).recs[sub]
      {
        var sub := candidates[n];
        var row := db.recs[sub];
        assert sub !in candidates[..n];
        assert candidates[..n + 1] == candidates[..n] + [sub];
        if !row.state.ReviewRequired? {
          assert false;
        }
        db := db.(recs := db.recs[sub := row.(state := Expired, version := row.version + 1, failure := None)]);
        expired := expired + 1;
      }
      assert candidates[..|candidates|] == candidates;
      return Ok(expired);
    }

    method EnqueueExtract(job: Queue.JobId, request: Queue.EnqueueRequest, now: Time)
      requires Queue.ValidRequest(request)
      modifies this`jobs
      ensures jobs == Queue.WithJob(old(jobs), job, request, now) && Queue.DedupeKeyTaken(jobs, request.dedupeKey)
    {
      if !Queue.DedupeKeyTaken(jobs, request.dedupeKey) {
        jobs := jobs[job := Queue.NewJob(request, now)];
        assert jobs[job].dedupeKey == request.dedupeKey;
      }
    }

    /** `persist_stored_ingest`: the transition, the asset row and the extract job commit together or
        not at all. The result says whether the original is on record now. */
    method PersistStored(sub: SubId, account: AccountId, hash: string, job: Queue.JobId, texts: Texts, now: Time)
      returns (r: Result<bool, ErrorClass>)
      requires |texts.sub| == 36 && |texts.account| == 36
      modifies this
      ensures var step := Store(sub, account, hash);
        db == Effect(old(db), step) && (r.Ok? <==> Outcome(old(db), step).Ok?) && (r.Err? ==> Outcome(old(db), step) == Err(r.error))
      ensures r == Ok(true) ==> old(db).recs[sub].state.Queued? && db.recs[sub].state.Stored? && db.recs[sub].asset == Some(Asset(hash, true))
      ensures r == Ok(true) ==> jobs == Queue.WithJob(old(jobs), job, ExtractRequest(sub, texts, now), now)
                                && Queue.DedupeKeyTaken(jobs, ExtractRequest(sub, texts, now).dedupeKey)
      ensures r == Ok(true) && !Queue.DedupeKeyTaken(old(jobs), "receipt.extract:" + texts.sub) ==>
        job in jobs && jobs[job].jobType == "receipt.extract" && jobs[job].target == Some(sub) && jobs[job].state.Queued?
        && jobs[job].dedupeKey == "receipt.extract:" + texts.sub && jobs[job].serKey == Some("receipt:" + texts.account)
      ensures r != Ok(true) ==> db == old(db) && jobs == old(jobs)
    {
      r := StoreOriginal(sub, account, hash);
      if r == Ok(true) {
        ExtractRequestIsValid(sub, texts, now);
        EnqueueExtract(job, ExtractRequest(sub, texts, now), now);
      }
    }

    /** Its statements on the receipt tables. */
    method StoreOriginal(sub: SubId, account: AccountId, hash: string) returns (r: Result<bool, ErrorClass>)
      modifies this`db
      ensures var step := Store(sub, account, hash);
        db == Effect(old(db), step) && (r.Ok? <==> Outcome(old(db), step).Ok?) && (r.Err? ==> Outcome(old(db), step) == Err(r.error))
      ensures r == Ok(true) ==>
        && sub in old(db).recs && sub in db.recs && old(db).recs[sub].state.Queued? && db.recs[sub].state.Stored?
        && db.recs[sub].asset == Some(Asset(hash, true))
      ensures r != Ok(true) ==> db == old(db)
    {
      if sub !in db.recs || db.recs[sub].account != account {
        return Err(NotFound);
      }
      var row := db.recs[sub];
      if row.state in {Stored, Extracting, ReviewRequired, Confirmed} || IsTerminal(row.state) {
        return Ok(false);
      }
      if row.state !in {Queued, FailedTransient} {
        return Err(Conflict);
      }
      if !CanTransition(row.state, Stored) {
        return Err(Conflict);
      }
      var saved := db;
      db := db.(recs := db.recs[sub := row.(state := Stored, version := row.version + 1, failure := None)]);
      if row.asset.Some? || HashTaken(saved, sub, account, hash) {
        db := saved;
        return Ok(false);
      }
      db := db.(recs := db.recs[sub := db.recs[sub].(asset := Some(Asset(hash, true)), timesStored := row.timesStored + 1)]);
      return Ok(true);
    }
  }

  /** The step `Edit`, past the guards on the submission, comes to this. */
  lemma EditCommitted(db: Db, step: Step)
    requires step.Edit? && Found(db, step) && db.recs[step.sub].state.ReviewRequired?
    requires db.recs[step.sub].draft.Some? && db.recs[step.sub].draft.value.version == step.draftVersion
    ensures var before := db.recs[step.sub].draft.value.fields;
      Outcome(db, step) == if ValidPatch(step.patch, db.categories)
                           then Ok(Edited(db, step.sub, before, Draft(Patched(before, step.patch), step.draftVersion + 1)))
                           else Err(Validation)
  {
  }

  /** A submission still under review has no expense row. */
  lemma NoExpenseYet(db: Db, sub: SubId)
    requires Inv(db) && sub in db.recs && db.recs[sub].state.ReviewRequired?
    ensures forall x: ExpId :: !Refers(db, x, sub)
  {
  }
}
