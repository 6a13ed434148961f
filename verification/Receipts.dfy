/** The receipt lifecycle: submissions with their asset, draft and correction log, and the
    expenses they turn into.

    Each transaction first locks the submission's row, so the transactions on one submission are
    serial, and each is one step here. Tables keyed by submission are kept inside the submission's
    record. The last four fields of a record are history, which no transaction reads. */
module Receipts {
  import opened Base

  type SubId = nat
  type ExpId = nat
  type AccountId = nat

  datatype ReceiptState =
    | Pending | Queued | Stored | Extracting | ReviewRequired | Confirmed | Rejected
    | FailedTransient | FailedPermanent | Expired | Deleted

  predicate IsTerminal(s: ReceiptState) {
    s.Confirmed? || s.Rejected? || s.Expired? || s.FailedPermanent? || s.Deleted?
  }

  predicate CanTransition(from: ReceiptState, to: ReceiptState) {
    match from
    case Pending => to.Queued?
    case Queued => to.Stored? || to.FailedTransient? || to.FailedPermanent?
    case Stored => to.Extracting? || to.Deleted?
    case Extracting => to.ReviewRequired? || to.FailedTransient? || to.FailedPermanent? || to.Deleted?
    case FailedTransient => to.Queued? || to.Extracting? || to.Deleted?
    case ReviewRequired => to.Confirmed? || to.Rejected? || to.Expired? || to.Deleted?
    case Deleted => false
    case _ => to.Deleted?
  }

  // ----- drafts and their corrections -----

  datatype Fields = Fields(amount: int, currency: string, merchant: string, category: string,
                           occurredAt: Time, kind: string)

  datatype FieldName = AmountField | CurrencyField | MerchantField | CategoryField | OccurredField | KindField

  datatype Value = Number(number: int) | Text(text: string)

  datatype Correction = Correction(field: FieldName, was: Value, becomes: Value)

  datatype Draft = Draft(fields: Fields, version: int)

  function Get(f: Fields, name: FieldName): Value {
    match name
    case AmountField => Number(f.amount)
    case CurrencyField => Text(f.currency)
    case MerchantField => Text(f.merchant)
    case CategoryField => Text(f.category)
    case OccurredField => Number(f.occurredAt)
    case KindField => Text(f.kind)
  }

  function Put(f: Fields, name: FieldName, v: Value): Fields {
    match name
    case AmountField => if v.Number? then f.(amount := v.number) else f
    case CurrencyField => if v.Text? then f.(currency := v.text) else f
    case MerchantField => if v.Text? then f.(merchant := v.text) else f
    case CategoryField => if v.Text? then f.(category := v.text) else f
    case OccurredField => if v.Number? then f.(occurredAt := v.number) else f
    case KindField => if v.Text? then f.(kind := v.text) else f
  }

  /** Applying the log to `before`, in order, gives `after`, and every old value recorded is the
      value that was replaced. */
  ghost predicate Replays(before: Fields, log: seq<Correction>, after: Fields)
    decreases |log|
  {
    if log == [] then before == after
    else Get(before, log[0].field) == log[0].was
         && Replays(Put(before, log[0].field, log[0].becomes), log[1..], after)
  }

  lemma {:induction false} ReplaysChain(a: Fields, log1: seq<Correction>, b: Fields, log2: seq<Correction>, c: Fields)
    requires Replays(a, log1, b) && Replays(b, log2, c)
    ensures Replays(a, log1 + log2, c)
    decreases |log1|
  {
    if log1 == [] {
      assert log1 + log2 == log2;
    } else {
      assert (log1 + log2)[1..] == log1[1..] + log2;
      ReplaysChain(Put(a, log1[0].field, log1[0].becomes), log1[1..], b, log2, c);
    }
  }

  function CorrectionOf(before: Fields, after: Fields, name: FieldName): seq<Correction> {
    if Get(before, name) == Get(after, name) then [] else [Correction(name, Get(before, name), Get(after, name))]
  }

  /** One correction per changed field, in the order the edit checks them. */
  function Corrections(before: Fields, after: Fields): seq<Correction> {
    CorrectionOf(before, after, AmountField) + CorrectionOf(before, after, CurrencyField)
    + CorrectionOf(before, after, MerchantField) + CorrectionOf(before, after, CategoryField)
    + CorrectionOf(before, after, OccurredField) + CorrectionOf(before, after, KindField)
  }

  lemma OneCorrectionReplays(now: Fields, before: Fields, after: Fields, name: FieldName)
    requires Get(now, name) == Get(before, name)
    ensures Replays(now, CorrectionOf(before, after, name), Put(now, name, Get(after, name)))
  {
  }

  /** An edit's corrections, each recorded against the draft as it was, replay one after another. */
  lemma CorrectionsReplay(before: Fields, after: Fields)
    ensures Replays(before, Corrections(before, after), after)
  {
    var f1 := Put(before, AmountField, Get(after, AmountField));
    var f2 := Put(f1, CurrencyField, Get(after, CurrencyField));
    var f3 := Put(f2, MerchantField, Get(after, MerchantField));
    var f4 := Put(f3, CategoryField, Get(after, CategoryField));
    var f5 := Put(f4, OccurredField, Get(after, OccurredField));
    var c1 := CorrectionOf(before, after, AmountField);
    var c2 := c1 + CorrectionOf(before, after, CurrencyField);
    var c3 := c2 + CorrectionOf(before, after, MerchantField);
    var c4 := c3 + CorrectionOf(before, after, CategoryField);
    var c5 := c4 + CorrectionOf(before, after, OccurredField);
    OneCorrectionReplays(before, before, after, AmountField);
    OneCorrectionReplays(f1, before, after, CurrencyField);
    OneCorrectionReplays(f2, before, after, MerchantField);
    OneCorrectionReplays(f3, before, after, CategoryField);
    OneCorrectionReplays(f4, before, after, OccurredField);
    OneCorrectionReplays(f5, before, after, KindField);
    ReplaysChain(before, c1, f1, CorrectionOf(before, after, CurrencyField), f2);
    ReplaysChain(before, c2, f2, CorrectionOf(before, after, MerchantField), f3);
    ReplaysChain(before, c3, f3, CorrectionOf(before, after, CategoryField), f4);
    ReplaysChain(before, c4, f4, CorrectionOf(before, after, OccurredField), f5);
    ReplaysChain(before, c5, f5, CorrectionOf(before, after, KindField), Put(f5, KindField, Get(after, KindField)));
  }

  datatype Patch = Patch(amount: Option<int>, currency: Option<string>, merchant: Option<string>,
                         category: Option<string>, occurredAt: Option<Time>, kind: Option<string>)

  predicate ValidCurrency(c: string) { |c| == 3 && forall i :: 0 <= i < 3 ==> 'A' <= c[i] <= 'Z' }

  predicate ValidMerchant(m: string) { 1 <= |Trim(m)| <= 200 }

  predicate ValidKind(k: string) { k in {"expense", "income", "refund", "transfer", "adjustment"} }

  predicate ValidPatch(p: Patch, categories: set<string>) {
    && (p.amount.Some? ==> p.amount.value > 0)
    && (p.currency.Some? ==> ValidCurrency(p.currency.value))
    && (p.merchant.Some? ==> ValidMerchant(p.merchant.value))
    && (p.category.Some? ==> p.category.value in categories)
    && (p.kind.Some? ==> ValidKind(p.kind.value))
  }

  function Patched(f: Fields, p: Patch): Fields {
    Fields(if p.amount.Some? then p.amount.value else f.amount,
           if p.currency.Some? then p.currency.value else f.currency,
           if p.merchant.Some? then Trim(p.merchant.value) else f.merchant,
           if p.category.Some? then p.category.value else f.category,
           if p.occurredAt.Some? then p.occurredAt.value else f.occurredAt,
           if p.kind.Some? then p.kind.value else f.kind)
  }

  // ----- submissions -----

  datatype Asset = Asset(hash: string, active: bool)

  datatype Rec = Rec(account: AccountId, state: ReceiptState, version: int, duplicateOf: Option<SubId>,
                     expense: Option<ExpId>, failure: Option<ErrorClass>, reviewExpiresAt: Option<Time>,
                     asset: Option<Asset>, draft: Option<Draft>, corrections: seq<Correction>, attempts: nat,
                     timesStored: nat, timesDrafted: nat, extracted: Option<Fields>, edits: nat)

  function NewRec(account: AccountId): Rec {
    Rec(account, Pending, 1, None, None, None, None, None, None, [], 0, 0, 0, None, 0)
  }

  /** The optional columns a transition sets. */
  datatype Extra = Extra(failure: Option<ErrorClass>, expiry: Option<Time>, expense: Option<ExpId>, duplicateOf: Option<SubId>)

  const NO_EXTRA := Extra(None, None, None, None)

  /** `transition_state` from the row's current state. */
  function Transition(r: Rec, to: ReceiptState, x: Extra): Result<Rec, ErrorClass> {
    if !CanTransition(r.state, to) then Err(Conflict)
    else Ok(r.(state := to, version := r.version + 1,
               failure := if to.FailedTransient? || to.FailedPermanent? then x.failure
                          else if to.Deleted? then r.failure else None,
               reviewExpiresAt := if x.expiry.Some? then x.expiry else r.reviewExpiresAt,
               expense := if x.expense.Some? then x.expense else r.expense,
               duplicateOf := if x.duplicateOf.Some? then x.duplicateOf else r.duplicateOf))
  }

  datatype ExpenseState = Awaiting | Settled | Discarded

  datatype Expense = Expense(account: AccountId, fields: Fields, source: Option<SubId>, state: ExpenseState)

  datatype Db = Db(recs: map<SubId, Rec>, expenses: map<ExpId, Expense>, categories: set<string>)

  datatype Step =
    | Accept(sub: SubId, account: AccountId)
    | FailQueued(sub: SubId, account: AccountId, errorClass: ErrorClass)
    | MarkFailure(sub: SubId, account: AccountId, errorClass: ErrorClass)
    | Absorb(sub: SubId, account: AccountId, original: SubId)
    | Store(sub: SubId, account: AccountId, hash: string)
    | ClaimExtracting(sub: SubId, account: AccountId)
    | PersistSuccess(sub: SubId, account: AccountId, fields: Fields, expiry: Time)
    | PersistFailure(sub: SubId, account: AccountId, errorClass: ErrorClass, to: ReceiptState)
    | Confirm(sub: SubId, account: AccountId, draftVersion: int, expense: ExpId)
    | Reject(sub: SubId, account: AccountId, draftVersion: int)
    | Edit(sub: SubId, account: AccountId, draftVersion: int, patch: Patch)
    | Expire(sub: SubId, account: AccountId, now: Time)
    | DeleteOriginal(sub: SubId, account: AccountId, seenActive: bool) // what an earlier read saw of the asset
    | Sweep(sub: SubId, account: AccountId)
    | Recategorize(account: AccountId, expense: ExpId, category: string)
    | CreateManual(expense: ExpId, account: AccountId, fields: Fields)
    | ChangeManual(expense: ExpId, fields: Fields, state: ExpenseState)
    | Purge(account: AccountId)

  predicate HashTaken(db: Db, sub: SubId, account: AccountId, hash: string) {
    exists other :: other in db.recs && other != sub && db.recs[other].account == account
                    && db.recs[other].asset == Some(Asset(hash, true))
  }

  /** The steps on one submission's record that leave expenses alone: the record afterwards, or the
      error that rolls the transaction back. */
  function RecEffect(db: Db, r: Rec, step: Step): Result<Rec, ErrorClass> {
    match step
    case Accept(_, _) => if r.state.Pending? then Transition(r, Queued, NO_EXTRA) else Ok(r)
    case FailQueued(_, _, errorClass) =>
      if r.state.FailedPermanent? then Ok(r)
      else if !r.state.Queued? then Err(Conflict)
      else Transition(r, FailedPermanent, NO_EXTRA.(failure := Some(errorClass)))
    case MarkFailure(_, _, errorClass) =>
      if CanTransition(r.state, FailedPermanent)
      then Transition(r, FailedPermanent, NO_EXTRA.(failure := Some(errorClass))) else Ok(r)
    case Absorb(_, _, original) =>
      if r.duplicateOf == Some(original) && r.state.FailedPermanent? then Ok(r)
      else Transition(r, FailedPermanent, NO_EXTRA.(failure := Some(Duplicate), duplicateOf := Some(original)))
    case Store(sub, account, hash) =>
      if r.state in {Stored, Extracting, ReviewRequired, Confirmed} || IsTerminal(r.state) then Ok(r)
      else if !(r.state in {Queued, FailedTransient}) then Err(Conflict)
      else
        var stored := Transition(r, Stored, NO_EXTRA);
        if stored.Err? then stored
        else if r.asset.Some? || HashTaken(db, sub, account, hash) then Ok(r) // rolled back
        else Ok(stored.value.(asset := Some(Asset(hash, true)), timesStored := r.timesStored + 1))
    case ClaimExtracting(_, _) =>
      if r.state.ReviewRequired? || IsTerminal(r.state) || r.state.Extracting? then Ok(r)
      else if r.state.Stored? || r.state.FailedTransient? then Transition(r, Extracting, NO_EXTRA)
      else Err(Conflict)
    case PersistSuccess(_, _, fields, expiry) =>
      if r.state.ReviewRequired? || IsTerminal(r.state) then Ok(r)
      else if !r.state.Extracting? then Err(Conflict)
      else if fields.category !in db.categories then Err(Validation)
      else Transition(r.(attempts := r.attempts + 1,
                         draft := Some(Draft(fields, if r.draft.Some? then r.draft.value.version + 1 else 1)),
                         timesDrafted := r.timesDrafted + 1, extracted := Some(fields)),
                      ReviewRequired, NO_EXTRA.(expiry := Some(expiry)))
    case PersistFailure(_, _, errorClass, to) =>
      if !r.state.Extracting? then Ok(r)
      else Transition(r.(attempts := r.attempts + 1), to, NO_EXTRA.(failure := Some(errorClass)))
    case Reject(_, _, v) =>
      if r.state.Rejected? then Ok(r)
      else if !r.state.ReviewRequired? then Err(Conflict)
      else if r.draft.None? then Err(NotFound)
      else if r.draft.value.version != v then Err(Conflict)
      else Transition(r, Rejected, NO_EXTRA)
    case Edit(_, _, v, patch) =>
      if !r.state.ReviewRequired? then Err(Conflict)
      else if r.draft.None? then Err(NotFound)
      else if r.draft.value.version != v then Err(Conflict)
      else if !ValidPatch(patch, db.categories) then Err(Validation)
      else
        var before := r.draft.value.fields;
        var after := Patched(before, patch);
        Ok(r.(draft := Some(Draft(after, v + 1)), corrections := r.corrections + Corrections(before, after), edits := r.edits + 1))
    case Expire(_, _, now) =>
      if r.state.ReviewRequired? && r.reviewExpiresAt.Some? && r.reviewExpiresAt.value <= now
      then Transition(r, Expired, NO_EXTRA) else Ok(r)
    case DeleteOriginal(_, _, seenActive) =>
      if r.asset.None? then Err(NotFound)
      else if !seenActive then Ok(r)
      else
        var gone := if r.state.Deleted? then Ok(r) else Transition(r, Deleted, NO_EXTRA);
        if gone.Err? then gone else Ok(gone.value.(asset := Some(r.asset.value.(active := false))))
    case Sweep(_, _) =>
      if r.asset.Some? && r.state in {Confirmed, Rejected, Expired, FailedPermanent}
      then Ok(r.(asset := Some(r.asset.value.(active := false)))) else Ok(r)
    case _ => Ok(r)
  }

  /** The expense refers to the submission. */
  predicate Refers(db: Db, x: ExpId, sub: SubId) { x in db.expenses && db.expenses[x].source == Some(sub) }

  /** The expense row of a submission after `INSERT .. ON CONFLICT DO NOTHING` under a new id. */
  ghost function ExpenseFor(db: Db, sub: SubId, newId: ExpId): ExpId {
    if exists x: ExpId :: Refers(db, x, sub) then var x: ExpId :| Refers(db, x, sub); x else newId
  }

  predicate Confirms(r: Rec, step: Step)
    requires step.Confirm?
  {
    r.state.ReviewRequired? && r.draft.Some? && r.draft.value.version == step.draftVersion
  }

  ghost function Confirmation(db: Db, step: Step): Db
    requires step.Confirm? && step.sub in db.recs && Confirms(db.recs[step.sub], step)
  {
    var r := db.recs[step.sub];
    var x := ExpenseFor(db, step.sub, step.expense);
    var done := Transition(r, Confirmed, NO_EXTRA.(expense := Some(x)));
    if done.Err? then db
    else db.(recs := db.recs[step.sub := done.value],
             expenses := if x in db.expenses then db.expenses
                         else db.expenses[x := Expense(r.account, r.draft.value.fields, Some(step.sub), Settled)])
  }

  function Recategorized(f: Fields, category: string): Fields { f.(category := category) }

  function RecategorizedRec(r: Rec, account: AccountId, category: string): Rec {
    if r.account == account && r.draft.Some?
    then r.(draft := Some(r.draft.value.(fields := Recategorized(r.draft.value.fields, category)))) else r
  }

  function Recategorization(db: Db, step: Step): Db
    requires step.Recategorize? && step.expense in db.expenses
  {
    var e := db.expenses[step.expense];
    db.(expenses := db.expenses[step.expense := e.(fields := Recategorized(e.fields, step.category))],
        recs := if e.source.Some? && e.source.value in db.recs
                then db.recs[e.source.value := RecategorizedRec(db.recs[e.source.value], step.account, step.category)]
                else db.recs)
  }

  /** Ids that the source draws as fresh UUIDs are fresh. */
  ghost predicate Enabled(db: Db, step: Step) {
    match step
    case Confirm(_, _, _, x) => x !in db.expenses
    case CreateManual(x, _, _) => x !in db.expenses
    case PersistFailure(_, _, _, to) => to.FailedTransient? || to.FailedPermanent?
    case Recategorize(account, x, _) => x in db.expenses && db.expenses[x].account == account && db.expenses[x].state.Settled?
    case _ => true
  }

  predicate OnRecord(step: Step) {
    !step.Confirm? && !step.Recategorize? && !step.CreateManual? && !step.ChangeManual? && !step.Purge?
  }

  /** The record a step works on, `accept_submission` inserting it when it is missing. */
  predicate Found(db: Db, step: Step)
    requires OnRecord(step) || step.Confirm?
  {
    step.sub in db.recs && db.recs[step.sub].account == step.account
  }

  /** What the transaction answers: the tables it commits, or the error that rolls it back. */
  ghost function Outcome(db: Db, step: Step): Result<Db, ErrorClass>
    requires Enabled(db, step)
  {
    if step.Accept? && step.sub !in db.recs then
      Ok(db.(recs := db.recs[step.sub := NewRec(step.account).(state := Queued, version := 2)]))
    else if OnRecord(step) then
      if !Found(db, step) then Err(NotFound)
      else
        var r := RecEffect(db, db.recs[step.sub], step);
        if r.Err? then Err(r.error) else Ok(db.(recs := db.recs[step.sub := r.value]))
    else match step
      case Confirm(_, _, _, _) =>
        if !Found(db, step) then Err(NotFound)
        else if db.recs[step.sub].state.Confirmed? then
          if db.recs[step.sub].expense.Some? then Ok(db) else Err(Dependency)
        else if !db.recs[step.sub].state.ReviewRequired? then Err(Conflict)
        else if db.recs[step.sub].draft.None? then Err(NotFound)
        else if !Confirms(db.recs[step.sub], step) then Err(Conflict)
        else Ok(Confirmation(db, step))
      case Recategorize(_, _, category) => if category in db.categories then Ok(Recategorization(db, step)) else Err(Conflict)
      case CreateManual(x, account, fields) => Ok(db.(expenses := db.expenses[x := Expense(account, fields, None, Awaiting)]))
      case ChangeManual(x, fields, state) =>
        if x in db.expenses && db.expenses[x].state.Awaiting?
        then Ok(db.(expenses := db.expenses[x := db.expenses[x].(fields := fields, state := state)])) else Err(Conflict)
      case Purge(account) =>
        Ok(db.(recs := map sub | sub in db.recs && db.recs[sub].account != account :: db.recs[sub],
               expenses := map x | x in db.expenses && db.expenses[x].account != account :: db.expenses[x]))
  }

  ghost function Effect(db: Db, step: Step): Db
    requires Enabled(db, step)
  {
    var r := Outcome(db, step);
    if r.Ok? then r.value else db
  }

  // ----- the invariant of one record -----

  /** States whose submission has an original image on record. */
  predicate HasOriginal(s: ReceiptState) {
    s.Stored? || s.Extracting? || s.ReviewRequired? || s.Confirmed? || s.Rejected? || s.Expired? || s.FailedTransient?
  }

  predicate BeforeReview(s: ReceiptState) {
    s.Pending? || s.Queued? || s.Stored? || s.Extracting? || s.FailedTransient? || s.FailedPermanent?
  }

  predicate Reviewed(s: ReceiptState) { s.ReviewRequired? || s.Confirmed? || s.Rejected? || s.Expired? }

  ghost predicate RecOk(r: Rec, categories: set<string>) {
    && (HasOriginal(r.state) ==> r.asset.Some?)
    && (r.state.Pending? || r.state.Queued? ==> r.asset.None?)
    && r.timesStored == (if r.asset.Some? then 1 else 0)
    && r.timesDrafted == (if r.draft.Some? then 1 else 0)
    && (BeforeReview(r.state) ==> r.draft.None?)
    && (Reviewed(r.state) ==> r.draft.Some?)
    && (r.draft.Some? <==> r.extracted.Some?)
    && (r.draft.None? ==> r.corrections == [] && r.edits == 0)
    && (r.draft.Some? ==> r.draft.value.version == 1 + r.edits && r.draft.value.fields.category in categories)
    && (r.draft.Some? && r.expense.None? ==> Replays(r.extracted.value, r.corrections, r.draft.value.fields))
    && (r.state.Confirmed? ==> r.expense.Some?)
    && (r.expense.Some? ==> (r.state.Confirmed? || r.state.Deleted?) && r.draft.Some?)
    && (r.failure.Some? ==> r.state.FailedTransient? || r.state.FailedPermanent? || r.state.Deleted?)
    && (r.duplicateOf.Some? ==> r.state.FailedPermanent? || r.state.Deleted?)
    && (r.state.ReviewRequired? ==> r.reviewExpiresAt.Some?)
  }

  lemma EditKeepsRecOk(db: Db, r: Rec, step: Step)
    requires RecOk(r, db.categories) && step.Edit? && RecEffect(db, r, step).Ok?
    ensures RecOk(RecEffect(db, r, step).value, db.categories)
  {
    var before := r.draft.value.fields;
    var after := Patched(before, step.patch);
    CorrectionsReplay(before, after);
    ReplaysChain(r.extracted.value, r.corrections, before, Corrections(before, after), after);
  }

  /** The transactions up to the review. */
  predicate IsIntake(step: Step) {
    step.Accept? || step.FailQueued? || step.MarkFailure? || step.Absorb? || step.Store? || step.ClaimExtracting?
    || step.PersistSuccess? || step.PersistFailure?
  }

  lemma IntakeKeepsRecOk(db: Db, r: Rec, step: Step)
    requires RecOk(r, db.categories) && Enabled(db, step) && IsIntake(step) && RecEffect(db, r, step).Ok?
    ensures RecOk(RecEffect(db, r, step).value, db.categories)
  {
  }

  lemma RecStepKeepsRecOk(db: Db, r: Rec, step: Step)
    requires RecOk(r, db.categories) && Enabled(db, step) && OnRecord(step) && RecEffect(db, r, step).Ok?
    ensures RecOk(RecEffect(db, r, step).value, db.categories)
    ensures RecEffect(db, r, step).value.account == r.account && RecEffect(db, r, step).value.expense == r.expense
    ensures r.expense.Some? ==> RecEffect(db, r, step).value.draft == r.draft
  {
    if step.Edit? {
      EditKeepsRecOk(db, r, step);
    } else if IsIntake(step) {
      IntakeKeepsRecOk(db, r, step);
    }
  }

  // ----- submissions and expenses together -----

  /** A submission names an expense exactly when that expense refers to it, and the two agree. */
  ghost predicate ExpenseMatches(db: Db, sub: SubId)
    requires sub in db.recs
  {
    var r := db.recs[sub];
    r.expense.Some? ==>
      && Refers(db, r.expense.value, sub)
      && db.expenses[r.expense.value].account == r.account
      && db.expenses[r.expense.value].state.Settled?
      && r.draft.Some?
      && db.expenses[r.expense.value].fields == r.draft.value.fields
  }

  ghost predicate SourceKnown(db: Db, x: ExpId)
    requires x in db.expenses
  {
    var source := db.expenses[x].source;
    source.Some? ==> source.value in db.recs && db.recs[source.value].expense == Some(x)
  }

  ghost predicate Inv(db: Db) {
    && (forall sub :: sub in db.recs ==> RecOk(db.recs[sub], db.categories))
    && (forall sub :: sub in db.recs ==> ExpenseMatches(db, sub))
    && (forall x :: x in db.expenses ==> SourceKnown(db, x))
  }

  lemma RecStepKeepsInv(db: Db, step: Step)
    requires Inv(db) && Enabled(db, step) && OnRecord(step)
    ensures Inv(Effect(db, step))
  {
    if Found(db, step) && RecEffect(db, db.recs[step.sub], step).Ok? {
      var r' := RecEffect(db, db.recs[step.sub], step).value;
      assert Effect(db, step) == db.(recs := db.recs[step.sub := r']);
      assert Inv(db.(recs := db.recs[step.sub := r'])) by {
        RecStepKeepsRecOk(db, db.recs[step.sub], step);
        RecChangeKeepsInv(db, step.sub, r');
      }
    } else if step.Accept? && step.sub !in db.recs {
      RecChangeKeepsInv(db, step.sub, NewRec(step.account).(state := Queued, version := 2));
    }
  }

  /** A record may change, as long as it keeps its expense and the draft that expense was made of. */
  lemma RecChangeKeepsInv(db: Db, sub: SubId, r: Rec)
    requires Inv(db) && RecOk(r, db.categories)
    requires sub in db.recs ==> r.account == db.recs[sub].account && r.expense == db.recs[sub].expense
                                && (r.expense.Some? ==> r.draft == db.recs[sub].draft)
    requires sub !in db.recs ==> r.expense.None?
    ensures Inv(db.(recs := db.recs[sub := r]))
  {
  }

  lemma ConfirmKeepsInv(db: Db, step: Step)
    requires Inv(db) && Enabled(db, step) && step.Confirm?
    ensures Inv(Effect(db, step))
  {
    if Found(db, step) && Confirms(db.recs[step.sub], step) {
      var r := db.recs[step.sub];
      forall x: ExpId ensures !Refers(db, x, step.sub) {
        assert x in db.expenses ==> SourceKnown(db, x);
      }
      var db' := Effect(db, step);
      forall s | s in db'.recs ensures ExpenseMatches(db', s) {
        assert ExpenseMatches(db, s);
      }
      forall x | x in db'.expenses && x != step.expense ensures SourceKnown(db', x) {
        assert SourceKnown(db, x);
      }
    }
  }

  lemma RecategorizeKeepsInv(db: Db, step: Step)
    requires Inv(db) && Enabled(db, step) && step.Recategorize?
    ensures Inv(Effect(db, step))
  {
    if step.category in db.categories {
      var db' := Effect(db, step);
      assert SourceKnown(db, step.expense);
      forall s | s in db'.recs ensures ExpenseMatches(db', s) && RecOk(db'.recs[s], db'.categories) {
        assert ExpenseMatches(db, s) && RecOk(db.recs[s], db.categories);
      }
      forall x | x in db'.expenses ensures SourceKnown(db', x) {
        assert SourceKnown(db, x);
      }
    }
  }

  lemma OtherKeepsInv(db: Db, step: Step)
    requires Inv(db) && Enabled(db, step) && (step.CreateManual? || step.ChangeManual? || step.Purge?)
    ensures Inv(Effect(db, step))
  {
    var db' := Effect(db, step);
    forall s | s in db'.recs ensures ExpenseMatches(db', s) {
      assert ExpenseMatches(db, s);
    }
    forall x | x in db'.expenses ensures SourceKnown(db', x) {
      assert x in db.expenses ==> SourceKnown(db, x);
      if x in db.expenses && db.expenses[x].source.Some? {
        assert ExpenseMatches(db, db.expenses[x].source.value);
      }
    }
  }

  lemma StepKeepsInv(db: Db, step: Step)
    requires Inv(db) && Enabled(db, step)
    ensures Inv(Effect(db, step))
  {
    if step.Confirm? {
      ConfirmKeepsInv(db, step);
    } else if step.Recategorize? {
      RecategorizeKeepsInv(db, step);
    } else if OnRecord(step) {
      RecStepKeepsInv(db, step);
    } else {
      OtherKeepsInv(db, step);
    }
  }

  predicate MovesLegally(from: ReceiptState, to: ReceiptState) {
    && (from == to || CanTransition(from, to))
    && (to.Stored? && from != to ==> from.Queued?)
    && (IsTerminal(from) ==> IsTerminal(to))
    && (from.ReviewRequired? ==> to.ReviewRequired? || IsTerminal(to))
  }

  lemma RecMovesLegally(db: Db, r: Rec, step: Step)
    requires Enabled(db, step) && OnRecord(step) && RecEffect(db, r, step).Ok?
    ensures MovesLegally(r.state, RecEffect(db, r, step).value.state)
  {
  }

  /** Records move along legal transitions only, and `stored` is entered from `queued`. */
  lemma StepMovesLegally(db: Db, step: Step, sub: SubId)
    requires Enabled(db, step) && sub in db.recs && sub in Effect(db, step).recs
    ensures MovesLegally(db.recs[sub].state, Effect(db, step).recs[sub].state)
  {
    if OnRecord(step) {
      if RecEffect(db, db.recs[sub], step).Ok? {
        RecMovesLegally(db, db.recs[sub], step);
      }
    } else if step.Recategorize? {
      assert MovesLegally(db.recs[sub].state, db.recs[sub].state);
    }
  }

  // ----- runs -----

  ghost predicate IsRun(dbs: seq<Db>, steps: seq<Step>) {
    && |dbs| == |steps| + 1
    && dbs[0].recs == map[] && dbs[0].expenses == map[]
    && forall i :: 0 <= i < |steps| ==> Enabled(dbs[i], steps[i]) && dbs[i + 1] == Effect(dbs[i], steps[i])
  }

  lemma {:induction false} InvAlongRun(dbs: seq<Db>, steps: seq<Step>, i: nat)
    requires IsRun(dbs, steps) && i < |dbs|
    ensures Inv(dbs[i])
  {
    if i > 0 {
      InvAlongRun(dbs, steps, i - 1);
      StepKeepsInv(dbs[i - 1], steps[i - 1]);
    }
  }

  /** Under any interleaving of confirm, edit, reject, expire and recategorize, a submission names
      an expense exactly when one expense refers to it, at most one does, and that expense's
      fields are the draft's. */
  lemma OneExpensePerReceipt(dbs: seq<Db>, steps: seq<Step>, i: nat, sub: SubId, x: ExpId)
    requires IsRun(dbs, steps) && i < |dbs| && sub in dbs[i].recs
    ensures dbs[i].recs[sub].expense == Some(x) <==> Refers(dbs[i], x, sub)
    ensures Refers(dbs[i], x, sub) ==>
      dbs[i].recs[sub].draft.Some? && dbs[i].expenses[x].fields == dbs[i].recs[sub].draft.value.fields
    ensures dbs[i].recs[sub].state.Confirmed? ==> dbs[i].recs[sub].expense.Some?
  {
    InvAlongRun(dbs, steps, i);
    assert ExpenseMatches(dbs[i], sub);
    assert x in dbs[i].expenses ==> SourceKnown(dbs[i], x);
  }

  /** While a submission awaits review, its correction log applied in order to the extracted draft
      gives the current draft, and every recorded old value is the one that was replaced. */
  lemma CorrectionLogReplays(dbs: seq<Db>, steps: seq<Step>, i: nat, sub: SubId)
    requires IsRun(dbs, steps) && i < |dbs| && sub in dbs[i].recs && dbs[i].recs[sub].state.ReviewRequired?
    ensures var r := dbs[i].recs[sub];
      r.extracted.Some? && r.draft.Some? && Replays(r.extracted.value, r.corrections, r.draft.value.fields)
  {
    InvAlongRun(dbs, steps, i);
    assert RecOk(dbs[i].recs[sub], dbs[i].categories);
  }

  /** `stored` is entered at most once; exactly one asset row goes with the states past it, none
      with the states before it; and the draft is created once, each edit adding one version. */
  lemma AssetAndDraftStructure(dbs: seq<Db>, steps: seq<Step>, i: nat, sub: SubId)
    requires IsRun(dbs, steps) && i < |dbs| && sub in dbs[i].recs
    ensures var r := dbs[i].recs[sub];
      && r.timesStored <= 1 && r.timesDrafted <= 1
      && (HasOriginal(r.state) ==> r.asset.Some? && r.timesStored == 1)
      && (r.state.Pending? || r.state.Queued? ==> r.asset.None?)
      && (Reviewed(r.state) ==> r.draft.Some?)
      && (r.draft.Some? ==> r.draft.value.version == 1 + r.edits)
  {
    InvAlongRun(dbs, steps, i);
    assert RecOk(dbs[i].recs[sub], dbs[i].categories);
  }

  /** The step is an edit of the draft that took effect. */
  ghost predicate CommitsEdit(db: Db, step: Step, sub: SubId, version: int) {
    step.Edit? && step.sub == sub && step.draftVersion == version && Found(db, step) && RecEffect(db, db.recs[sub], step).Ok?
  }

  ghost predicate DraftPast(db: Db, sub: SubId, version: int) {
    sub in db.recs ==> db.recs[sub].draft.Some? && db.recs[sub].draft.value.version > version
  }

  lemma RecKeepsDraft(db: Db, r: Rec, step: Step)
    requires OnRecord(step) && RecEffect(db, r, step).Ok? && r.draft.Some?
    ensures var r' := RecEffect(db, r, step).value; r'.account == r.account && r'.draft.Some? && r'.draft.value.version >= r.draft.value.version
  {
  }

  lemma DraftStaysPast(db: Db, step: Step, sub: SubId, version: int)
    requires Enabled(db, step) && sub in db.recs && DraftPast(db, sub, version)
    requires step.Purge? ==> step.account != db.recs[sub].account
    ensures sub in Effect(db, step).recs && DraftPast(Effect(db, step), sub, version)
    ensures Effect(db, step).recs[sub].account == db.recs[sub].account
  {
    if OnRecord(step) && RecEffect(db, db.recs[sub], step).Ok? {
      RecKeepsDraft(db, db.recs[sub], step);
    }
  }

  lemma {:induction false} DraftPastAlongRun(dbs: seq<Db>, steps: seq<Step>, i: nat, k: nat, sub: SubId, version: int)
    requires IsRun(dbs, steps) && i < k < |dbs| && CommitsEdit(dbs[i], steps[i], sub, version)
    requires forall m :: i < m < k ==> !(steps[m].Purge? && steps[m].account == dbs[i].recs[sub].account)
    ensures sub in dbs[k].recs && DraftPast(dbs[k], sub, version) && dbs[k].recs[sub].account == dbs[i].recs[sub].account
    decreases k
  {
    if k == i + 1 {
      assert dbs[k] == Effect(dbs[i], steps[i]);
    } else {
      DraftPastAlongRun(dbs, steps, i, k - 1, sub, version);
      DraftStaysPast(dbs[k - 1], steps[k - 1], sub, version);
    }
  }

  /** Two edits that expect the same draft version never both commit. */
  lemma SameVersionEditsExclude(dbs: seq<Db>, steps: seq<Step>, i: nat, k: nat, sub: SubId, version: int)
    requires IsRun(dbs, steps) && i < k < |steps| && CommitsEdit(dbs[i], steps[i], sub, version)
    requires forall m :: i < m < k ==> !(steps[m].Purge? && steps[m].account == dbs[i].recs[sub].account)
    ensures !CommitsEdit(dbs[k], steps[k], sub, version)
  {
    DraftPastAlongRun(dbs, steps, i, k, sub, version);
  }
}
