/** The `outbound_messages` table and the history of hand-offs to the provider.

    A message is handed over in stages: a worker reserves the row, sends, sees the adapter's
    result, issues the statement that settles the row, and that statement lands. Results are the
    adapter's classification; what the provider really did is not modelled. */
module Outbox {
  import opened Base

  type OutId = nat

  datatype OutState = Waiting | Sending | Sent | Failed | Suppressed | Ambiguous

  datatype SendResult = Delivered | Refused(errorClass: ErrorClass)

  /** The row state a result settles to. */
  function Settled(r: SendResult): OutState {
    if r.Delivered? then Sent else if r.errorClass == ProviderAmbiguous then Ambiguous else Failed
  }

  datatype Row = Row(key: string, state: OutState, attemptCount: int, lastError: Option<ErrorClass>)

  datatype Stage =
    | Reserved
    | InFlight
    | Returned(result: SendResult)
    | Settling(result: SendResult, leaseSeen: bool)
    | Recorded(result: SendResult)
    | Unrecorded(result: SendResult) // the settling statement matched no row

  /** The provider refused the message for certain, and that is on record. */
  predicate DefiniteFailure(h: Stage) { h.Recorded? && h.result.Refused? && h.result.errorClass != ProviderAmbiguous }

  /** The message was accepted, or may have been. */
  predicate MayHaveArrived(r: SendResult) { r == Delivered || r == Refused(ProviderAmbiguous) }

  predicate HandedOff(h: Stage) { !h.Reserved? }

  /** The rows, and for every row that ever existed its hand-offs, one per reservation. */
  datatype Box = Box(rows: map<OutId, Row>, handoffs: map<OutId, seq<Stage>>)

  /** A leased statement in progress: its snapshot saw the lease, or did not. */
  datatype Stmt =
    | ReserveStmt(o: OutId, leaseSeen: bool)
    | MarkStmt(o: OutId, leaseSeen: bool)

  predicate KeyTaken(rows: map<OutId, Row>, key: string) {
    exists o :: o in rows && rows[o].key == key
  }

  predicate HasStage(b: Box, o: OutId, i: nat) { o in b.handoffs && i < |b.handoffs[o]| }

  function ReservedRow(row: Row): Row { row.(state := Sending, attemptCount := row.attemptCount + 1) }

  function MarkedRow(row: Row): Row { row.(state := Ambiguous, lastError := Some(ProviderAmbiguous)) }

  function SettledRow(row: Row, result: SendResult): Row {
    row.(state := Settled(result), lastError := if result.Refused? then Some(result.errorClass) else None)
  }

  function NewRow(key: string, deliver: bool): Row { Row(key, if deliver then Waiting else Suppressed, 0, None) }

  function Inserted(b: Box, key: string, deliver: bool, o: OutId): Box {
    if KeyTaken(b.rows, key) then b else Box(b.rows[o := NewRow(key, deliver)], b.handoffs[o := []])
  }

  function Reserve(b: Box, o: OutId): Box
    requires o in b.rows && o in b.handoffs
  {
    Box(b.rows[o := ReservedRow(b.rows[o])], b.handoffs[o := b.handoffs[o] + [Reserved]])
  }

  function Moved(b: Box, o: OutId, i: nat, h: Stage): Box
    requires HasStage(b, o, i)
  {
    b.(handoffs := b.handoffs[o := b.handoffs[o][i := h]])
  }

  /** A leased statement lands: its guard on the row is evaluated on the row as it is now. */
  function Landed(b: Box, stmt: Stmt): Box {
    if !stmt.leaseSeen || stmt.o !in b.rows || stmt.o !in b.handoffs then b
    else if stmt.ReserveStmt? then
      if b.rows[stmt.o].state in {Waiting, Failed} then Reserve(b, stmt.o) else b
    else
      if b.rows[stmt.o].state.Sending? then b.(rows := b.rows[stmt.o := MarkedRow(b.rows[stmt.o])]) else b
  }

  function SettleLanded(b: Box, o: OutId, i: nat): Box
    requires HasStage(b, o, i) && b.handoffs[o][i].Settling?
  {
    var h := b.handoffs[o][i];
    if h.leaseSeen && o in b.rows && b.rows[o].state.Sending?
    then Moved(b, o, i, Recorded(h.result)).(rows := b.rows[o := SettledRow(b.rows[o], h.result)])
    else Moved(b, o, i, Unrecorded(h.result))
  }

  // ----- the invariant -----

  /** Every hand-off but the last was recorded as a definite failure. */
  ghost predicate HistoryOk(hs: seq<Stage>) {
    forall i :: 0 <= i < |hs| - 1 ==> DefiniteFailure(hs[i])
  }

  ghost predicate RowOk(row: Row, hs: seq<Stage>) {
    && row.attemptCount == |hs|
    && match row.state
       case Waiting => hs == []
       case Suppressed => hs == []
       case Failed => hs != [] && DefiniteFailure(hs[|hs| - 1]) && row.lastError == Some(hs[|hs| - 1].result.errorClass)
       case Sending => hs != [] && !hs[|hs| - 1].Recorded?
       case Sent => hs != [] && hs[|hs| - 1] == Recorded(Delivered) && row.lastError.None?
       case Ambiguous =>
         hs != [] && (hs[|hs| - 1].Recorded? ==> hs[|hs| - 1] == Recorded(Refused(ProviderAmbiguous)))
         && row.lastError == Some(ProviderAmbiguous)
  }

  ghost predicate BoxOk(b: Box) {
    && b.rows.Keys <= b.handoffs.Keys
    && (forall o :: o in b.handoffs ==> HistoryOk(b.handoffs[o]))
    && (forall o :: o in b.rows ==> RowOk(b.rows[o], b.handoffs[o]))
  }

  /** Hand-offs are only added. */
  ghost predicate Grows(b: Box, b': Box) {
    forall o :: o in b.handoffs ==> o in b'.handoffs && b.handoffs[o] <= b'.handoffs[o]
  }

  lemma InsertedOk(b: Box, key: string, deliver: bool, o: OutId)
    requires BoxOk(b) && o !in b.handoffs
    ensures BoxOk(Inserted(b, key, deliver, o)) && Grows(b, Inserted(b, key, deliver, o))
  {
  }

  lemma ReserveOk(b: Box, o: OutId)
    requires BoxOk(b) && o in b.rows && b.rows[o].state in {Waiting, Failed}
    ensures BoxOk(Reserve(b, o)) && Grows(b, Reserve(b, o))
  {
  }

  lemma LandedOk(b: Box, stmt: Stmt)
    requires BoxOk(b)
    ensures BoxOk(Landed(b, stmt)) && Grows(b, Landed(b, stmt))
  {
  }

  /** Only the last hand-off can be unrecorded, and moving it on short of recording it is no
      concern of the row's. */
  lemma MovedOk(b: Box, o: OutId, i: nat, h: Stage)
    requires BoxOk(b) && HasStage(b, o, i) && !b.handoffs[o][i].Recorded? && !h.Recorded?
    ensures i == |b.handoffs[o]| - 1
    ensures BoxOk(Moved(b, o, i, h))
  {
  }

  lemma SettleLandedOk(b: Box, o: OutId, i: nat)
    requires BoxOk(b) && HasStage(b, o, i) && b.handoffs[o][i].Settling?
    ensures BoxOk(SettleLanded(b, o, i))
  {
  }
}
