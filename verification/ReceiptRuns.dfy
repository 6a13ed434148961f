/** What a whole run of receipt transactions says of its submissions and expenses: how each state was
    entered, what that wrote, which originals there are, and what may still happen to an expense. */
module ReceiptRuns {
  import opened Base
  import opened Receipts

  // ----- how each state is entered -----

  /** The step works on the submission, which its account owns. */
  predicate IsOn(r: Rec, step: Step, sub: SubId) {
    (OnRecord(step) || step.Confirm?) && step.sub == sub && step.account == r.account
  }

  /** Another submission of the account holds an original with the hash. */
  ghost predicate HeldElsewhere(db: Db, sub: SubId, account: AccountId, hash: string) {
    exists other :: other in db.recs && other != sub && db.recs[other].account == account
                    && db.recs[other].asset.Some? && db.recs[other].asset.value.active && db.recs[other].asset.value.hash == hash
  }

  predicate OpensReview(r: Rec, step: Step, categories: set<string>) {
    step.PersistSuccess? && r.state == Extracting && step.fields.category in categories
  }

  /** The answer is to the draft as it stands. */
  predicate AnswersDraft(r: Rec, version: int) {
    r.state == ReviewRequired && r.draft.Some? && r.draft.value.version == version
  }

  /** What brings a submission, not yet there, to a state. */
  ghost predicate Brings(db: Db, r: Rec, step: Step, sub: SubId, to: ReceiptState) {
    match to
    case Pending => false
    case Queued => step.Accept? && r.state == Pending
    case Stored => step.Store? && r.state == Queued && r.asset.None? && !HeldElsewhere(db, sub, r.account, step.hash)
    case Extracting => step.ClaimExtracting? && r.state in {Stored, FailedTransient}
    case ReviewRequired => OpensReview(r, step, db.categories)
    case Confirmed => step.Confirm? && AnswersDraft(r, step.draftVersion)
    case Rejected => step.Reject? && AnswersDraft(r, step.draftVersion)
    case Expired => step.Expire? && r.state == ReviewRequired && r.reviewExpiresAt.Some? && r.reviewExpiresAt.value <= step.now
    case FailedTransient => step.PersistFailure? && step.to == FailedTransient && r.state == Extracting
    case FailedPermanent =>
      || (r.state == Queued && (step.FailQueued? || step.MarkFailure? || step.Absorb?))
      || (r.state == Extracting && (step.MarkFailure? || step.Absorb? || (step.PersistFailure? && step.to == FailedPermanent)))
    case Deleted => step.DeleteOriginal? && step.seenActive && r.asset.Some? && r.state !in {Pending, Queued, Deleted}
  }

  lemma RecIsBrought(db: Db, r: Rec, step: Step, to: ReceiptState)
    requires Enabled(db, step) && OnRecord(step) && to != r.state && step.sub in db.recs && db.recs[step.sub] == r && step.account == r.account
    ensures RecEffect(db, r, step).Ok? && RecEffect(db, r, step).value.state == to <==> Brings(db, r, step, step.sub, to)
  {
    if step.Store? {
      assert HashTaken(db, step.sub, step.account, step.hash) <==> HeldElsewhere(db, step.sub, r.account, step.hash);
    }
  }

  /** A submission is in a state it was not in before exactly when a step on it brings it there. */
  lemma StateChangesExactly(db: Db, step: Step, sub: SubId, to: ReceiptState)
    requires Enabled(db, step) && sub in db.recs && sub in Effect(db, step).recs && to != db.recs[sub].state
    ensures Effect(db, step).recs[sub].state == to <==> IsOn(db.recs[sub], step, sub) && Brings(db, db.recs[sub], step, sub, to)
  {
    if OnRecord(step) && IsOn(db.recs[sub], step, sub) {
      RecIsBrought(db, db.recs[sub], step, to);
    }
  }

  // ----- what entering a state writes -----

  /** The row, apart from its state and version, after the step that brought it to a new state. */
  ghost predicate Wrote(r: Rec, r': Rec, step: Step) {
    match r'.state
    case Stored => step.Store? && r' == r.(state := Stored, version := r.version + 1, failure := None,
                                           asset := Some(Asset(step.hash, true)), timesStored := r.timesStored + 1)
    case ReviewRequired => step.PersistSuccess?
      && r' == r.(state := ReviewRequired, version := r.version + 1, failure := None, reviewExpiresAt := Some(step.expiry),
                  attempts := r.attempts + 1, draft := r'.draft, extracted := Some(step.fields), timesDrafted := r.timesDrafted + 1)
      && r'.draft.Some? && r'.draft.value.fields == step.fields
    case Confirmed => r'.expense.Some? && r' == r.(state := Confirmed, version := r.version + 1, failure := None, expense := r'.expense)
    case FailedTransient => step.PersistFailure?
      && r' == r.(state := FailedTransient, version := r.version + 1, failure := Some(step.errorClass), attempts := r.attempts + 1)
    case FailedPermanent =>
      if step.Absorb?
      then r' == r.(state := FailedPermanent, version := r.version + 1, failure := Some(Duplicate), duplicateOf := Some(step.original))
      else (step.FailQueued? || step.MarkFailure? || step.PersistFailure?)
           && r' == r.(state := FailedPermanent, version := r.version + 1, failure := Some(step.errorClass),
                       attempts := if step.PersistFailure? then r.attempts + 1 else r.attempts)
    case Deleted => r.asset.Some?
      && r' == r.(state := Deleted, version := r.version + 1, asset := Some(Asset(r.asset.value.hash, false)))
    case _ => r' == r.(state := r'.state, version := r.version + 1, failure := None)
  }

  /** The row after a step that left its state alone. */
  ghost predicate Touched(r: Rec, r': Rec, step: Step) {
    if step.Edit? then r' == r || r' == r.(draft := r'.draft, corrections := r'.corrections, edits := r.edits + 1)
    else if step.Recategorize? then
      r' == r || (r.draft.Some? && r' == r.(draft := Some(r.draft.value.(fields := r.draft.value.fields.(category := step.category)))))
    else if step.Sweep? || step.DeleteOriginal? then r' == r || (r.asset.Some? && r' == r.(asset := Some(Asset(r.asset.value.hash, false))))
    else r' == r
  }

  lemma RecWrites(db: Db, r: Rec, step: Step)
    requires Enabled(db, step) && OnRecord(step) && RecEffect(db, r, step).Ok?
    ensures var r' := RecEffect(db, r, step).value; if r'.state == r.state then Touched(r, r', step) else Wrote(r, r', step)
  {
  }

  /** Each step's effect on each row, column by column; the version counts the changes of state. */
  lemma RowsChangeAsWritten(db: Db, step: Step, sub: SubId)
    requires Enabled(db, step) && sub in db.recs && sub in Effect(db, step).recs
    ensures var r, r' := db.recs[sub], Effect(db, step).recs[sub];
      if r'.state == r.state then Touched(r, r', step) else Wrote(r, r', step)
  {
    if OnRecord(step) && step.sub == sub && RecEffect(db, db.recs[sub], step).Ok? {
      RecWrites(db, db.recs[sub], step);
    }
  }

  /** A submission begins when it is accepted, as a queued one. */
  lemma AcceptInserts(db: Db, step: Step, sub: SubId)
    requires Enabled(db, step) && sub !in db.recs
    ensures sub in Effect(db, step).recs <==> step.Accept? && step.sub == sub
    ensures step.Accept? && step.sub == sub ==>
      Effect(db, step).recs[sub] == Rec(step.account, Queued, 2, None, None, None, None, None, None, [], 0, 0, 0, None, 0)
  {
  }

  // ----- one original per hash -----

  predicate Keeps(r: Rec, hash: string) { r.asset.Some? && r.asset.value.active && r.asset.value.hash == hash }

  /** No two submissions of an account hold the same original. */
  ghost predicate OriginalsDistinct(db: Db) {
    forall a, b :: a in db.recs && b in db.recs && a != b && db.recs[a].account == db.recs[b].account ==>
      !(Keeps(db.recs[a], HashOf(db.recs[a])) && Keeps(db.recs[b], HashOf(db.recs[a])))
  }

  function HashOf(r: Rec): string { if r.asset.Some? then r.asset.value.hash else "" }

  /** A row gains an original only by `Store`. */
  lemma OriginalComesFromStore(db: Db, step: Step, sub: SubId)
    requires Enabled(db, step) && sub in Effect(db, step).recs
    ensures var r' := Effect(db, step).recs[sub];
      Keeps(r', HashOf(r')) ==>
        && sub in db.recs && db.recs[sub].account == r'.account
        && (Keeps(db.recs[sub], HashOf(r')) || (step.Store? && step.sub == sub && !HeldElsewhere(db, sub, r'.account, HashOf(r'))))
    ensures sub in db.recs ==> Effect(db, step).recs[sub].account == db.recs[sub].account
  {
    if sub in db.recs {
      RowsChangeAsWritten(db, step, sub);
      var to := Effect(db, step).recs[sub].state;
      if to != db.recs[sub].state {
        StateChangesExactly(db, step, sub, to);
      }
    }
  }

  /** An original is let go exactly when it is deleted, or swept once its submission is done with. */
  lemma OriginalGoesExactly(db: Db, step: Step, sub: SubId)
    requires Enabled(db, step) && sub in db.recs && sub in Effect(db, step).recs && Keeps(db.recs[sub], HashOf(db.recs[sub]))
    ensures var r, r' := db.recs[sub], Effect(db, step).recs[sub];
      !Keeps(r', HashOf(r)) <==>
      IsOn(r, step, sub) && ((step.Sweep? && r.state in {Confirmed, Rejected, Expired, FailedPermanent})
                             || (step.DeleteOriginal? && step.seenActive && r.state !in {Pending, Queued}))
  {
    RowsChangeAsWritten(db, step, sub);
    var to := Effect(db, step).recs[sub].state;
    if to != db.recs[sub].state {
      StateChangesExactly(db, step, sub, to);
    }
  }

  lemma StepKeepsOriginalsDistinct(db: Db, step: Step)
    requires Enabled(db, step) && OriginalsDistinct(db)
    ensures OriginalsDistinct(Effect(db, step))
  {
    var db' := Effect(db, step);
    forall a, b | a in db'.recs && b in db'.recs && a != b && db'.recs[a].account == db'.recs[b].account
      ensures !(Keeps(db'.recs[a], HashOf(db'.recs[a])) && Keeps(db'.recs[b], HashOf(db'.recs[a])))
    {
      OriginalComesFromStore(db, step, a);
      OriginalComesFromStore(db, step, b);
    }
  }

  /** However images are submitted again, at no point of a run do two submissions of an account hold an
      original of the same hash. */
  lemma {:induction false} OneOriginalPerHash(dbs: seq<Db>, steps: seq<Step>, i: nat)
    requires IsRun(dbs, steps) && i < |dbs|
    ensures OriginalsDistinct(dbs[i])
  {
    if i > 0 {
      OneOriginalPerHash(dbs, steps, i - 1);
      StepKeepsOriginalsDistinct(dbs[i - 1], steps[i - 1]);
    }
  }

  // ----- what may happen to an expense -----

  /** The expense's row after the step, from before it. */
  ghost predicate ExpenseMoved(e: Expense, e': Expense, step: Step, x: ExpId, categories: set<string>) {
    if step.Recategorize? && step.expense == x && step.category in categories
    then e' == e.(fields := e.fields.(category := step.category))
    else if step.ChangeManual? && step.expense == x && e.state == Awaiting
    then e' == e.(fields := step.fields, state := step.state)
    else e' == e
  }

  predicate ConfirmsDraft(db: Db, step: Step)
    requires step.Confirm?
  {
    step.sub in db.recs && step.account == db.recs[step.sub].account && AnswersDraft(db.recs[step.sub], step.draftVersion)
  }

  /** A new expense is one entered by hand, or a confirmed draft. */
  ghost predicate ExpenseCreated(db: Db, e: Expense, step: Step, x: ExpId) {
    || (step.CreateManual? && step.expense == x && e == Expense(step.account, step.fields, None, Awaiting))
    || (step.Confirm? && step.expense == x && ConfirmsDraft(db, step)
        && e == Expense(step.account, db.recs[step.sub].draft.value.fields, Some(step.sub), Settled))
  }

  /** Which expenses there are after a step, and what they say. */
  lemma ExpensesChangeExactly(db: Db, step: Step, x: ExpId)
    requires Inv(db) && Enabled(db, step)
    ensures var db' := Effect(db, step);
      if x in db.expenses then
        && (x !in db'.expenses <==> step.Purge? && step.account == db.expenses[x].account)
        && (x in db'.expenses ==> ExpenseMoved(db.expenses[x], db'.expenses[x], step, x, db.categories))
      else
        && (x in db'.expenses ==> ExpenseCreated(db, db'.expenses[x], step, x))
        && (step.CreateManual? && step.expense == x ==> x in db'.expenses)
        && (step.Confirm? && step.expense == x && ConfirmsDraft(db, step) ==> x in db'.expenses)
  {
    if step.Confirm? && Found(db, step) && Confirms(db.recs[step.sub], step) {
      NoExpenseYet(db, step.sub);
    }
  }

  lemma NoExpenseYet(db: Db, sub: SubId)
    requires Inv(db) && sub in db.recs && db.recs[sub].state == ReviewRequired
    ensures forall x: ExpId :: !Refers(db, x, sub)
  {
    forall x: ExpId ensures !Refers(db, x, sub) {
      assert RecOk(db.recs[sub], db.categories);
      assert x in db.expenses ==> SourceKnown(db, x);
    }
  }

  predicate SameButCategory(e: Expense, e': Expense) {
    e' == e.(fields := e.fields.(category := e'.fields.category))
  }

  lemma StepKeepsSettled(db: Db, step: Step, x: ExpId)
    requires Inv(db) && Enabled(db, step) && x in db.expenses && x in Effect(db, step).expenses && db.expenses[x].state == Settled
    ensures SameButCategory(db.expenses[x], Effect(db, step).expenses[x])
  {
    ExpensesChangeExactly(db, step, x);
  }

  /** What an expense says, one step after another, while it is there. */
  lemma {:induction false} CategoryAloneChanges(es: seq<Expense>, n: nat)
    requires n < |es| && es[0].state == Settled
    requires forall i :: 0 < i < |es| && es[i - 1].state == Settled ==> SameButCategory(es[i - 1], es[i])
    ensures SameButCategory(es[0], es[n])
  {
    if n > 0 {
      CategoryAloneChanges(es, n - 1);
    }
  }

  lemma RunKeepsSettled(dbs: seq<Db>, steps: seq<Step>, i: nat, x: ExpId)
    requires IsRun(dbs, steps) && i < |steps| && x in dbs[i].expenses && x in dbs[i + 1].expenses && dbs[i].expenses[x].state == Settled
    ensures SameButCategory(dbs[i].expenses[x], dbs[i + 1].expenses[x])
  {
    InvAlongRun(dbs, steps, i);
    StepKeepsSettled(dbs[i], steps[i], x);
  }

  /** Once settled, an expense keeps everything but its category, for as long as it is there. */
  lemma SettledExpenseStands(dbs: seq<Db>, steps: seq<Step>, k: nat, m: nat, x: ExpId)
    requires IsRun(dbs, steps) && k <= m < |dbs| && forall i :: k <= i <= m ==> x in dbs[i].expenses
    requires dbs[k].expenses[x].state == Settled
    ensures SameButCategory(dbs[k].expenses[x], dbs[m].expenses[x])
  {
    var es := seq(m - k + 1, i requires 0 <= i <= m - k => dbs[k + i].expenses[x]);
    forall i | 0 < i < |es| && es[i - 1].state == Settled ensures SameButCategory(es[i - 1], es[i]) {
      RunKeepsSettled(dbs, steps, k + i - 1, x);
    }
    CategoryAloneChanges(es, m - k);
  }

  /** A purge leaves nothing of its account, and everything of the others. */
  lemma PurgeTakesTheAccount(db: Db, account: AccountId)
    ensures var db' := Effect(db, Purge(account));
      && (forall sub :: sub in db'.recs <==> sub in db.recs && db.recs[sub].account != account)
      && (forall x :: x in db'.expenses <==> x in db.expenses && db.expenses[x].account != account)
      && (forall sub :: sub in db'.recs ==> db'.recs[sub] == db.recs[sub])
      && (forall x :: x in db'.expenses ==> db'.expenses[x] == db.expenses[x])
  {
  }
}
