/** The call_logs table under interleaved statements of the started, ended and failed handlers. */
module CallLogs {
  import opened Wrappers

  type CallId = string
  type Time = int

  datatype Reason = Completed | Failed

  /** What only an INSERT writes. */
  datatype Origin = Origin(direction: string, caller: Option<string>, callee: Option<string>, startedAt: Time,
                           flowId: Option<int>, flowVersionId: Option<int>, entryNodeKey: Option<string>)

  datatype Row = Row(
    origin: Origin,
    endedAt: Option<Time>,
    answeredAt: Option<Time>,
    reason: Option<Reason>,
    duration: Option<int>,
    exitNodeKey: Option<string>,
    trunkId: Option<int>,
    recorded: bool)

  datatype Start = Start(origin: Origin, trunkId: Option<int>, recorded: bool)

  datatype End = End(endedAt: Time, answeredAt: Option<Time>, duration: Option<int>, exitNodeKey: Option<string>)

  datatype Failure = Failure(origin: Origin, end: End, trunkId: Option<int>, recorded: bool)

  /** One SQL statement of one handler; an ended handler has two, and its second may fail instead. */
  datatype Statement =
    | Started(id: CallId, start: Start)
    | EndedFirst(id: CallId, end: End, handler: int)
    | EndedSecond(id: CallId, handler: int)
    | EndedLost(id: CallId, handler: int)
    | FailedUpsert(id: CallId, failure: Failure)

  /** The table, and the ended handlers between their two statements. */
  datatype Db = Db(table: map<CallId, Row>, between: map<int, CallId>)

  function Coalesce<T>(a: Option<T>, b: Option<T>): Option<T> { if a.Some? then a else b }

  function Fresh(start: Start): Row {
    Row(start.origin, None, None, None, None, None, start.trunkId, start.recorded)
  }

  function Ended(row: Row, end: End): Row {
    row.(endedAt := Some(end.endedAt), answeredAt := Coalesce(end.answeredAt, row.answeredAt),
         duration := end.duration, exitNodeKey := end.exitNodeKey)
  }

  function FailedRow(row: Row, f: Failure): Row {
    Row(row.origin, Some(f.end.endedAt), Coalesce(f.end.answeredAt, row.answeredAt), Some(Failed),
        Coalesce(f.end.duration, row.duration), f.end.exitNodeKey, Coalesce(f.trunkId, row.trunkId), row.recorded || f.recorded)
  }

  function FailedFromNothing(f: Failure): Row {
    Row(f.origin.(entryNodeKey := None), Some(f.end.endedAt), f.end.answeredAt, Some(Failed), f.end.duration, f.end.exitNodeKey, f.trunkId, f.recorded)
  }

  predicate Enabled(db: Db, s: Statement) {
    match s
    case EndedFirst(_, _, h) => h !in db.between
    case EndedSecond(id, h) => h in db.between && db.between[h] == id
    case EndedLost(id, h) => h in db.between && db.between[h] == id
    case _ => true
  }

  /** The row of the statement's call after the statement. */
  function RowAfter(row: Option<Row>, s: Statement): Option<Row> {
    match s
    case Started(_, start) => if row.None? then Some(Fresh(start)) else row
    case EndedFirst(_, end, _) => if row.Some? && row.value.endedAt.None? then Some(Ended(row.value, end)) else row
    case EndedSecond(_, _) => if row.Some? && row.value.reason.None? then Some(row.value.(reason := Some(Completed))) else row
    case EndedLost(_, _) => row
    case FailedUpsert(_, f) =>
      if row.None? then Some(FailedFromNothing(f))
      else if row.value.endedAt.None? then Some(FailedRow(row.value, f))
      else row
  }

  function RowOf(db: Db, id: CallId): Option<Row> {
    if id in db.table then Some(db.table[id]) else None
  }

  function Write(table: map<CallId, Row>, id: CallId, row: Option<Row>): map<CallId, Row> {
    if row.Some? then table[id := row.value] else table
  }

  function Apply(db: Db, s: Statement): Db
    requires Enabled(db, s)
  {
    Db(Write(db.table, s.id, RowAfter(RowOf(db, s.id), s)),
       match s
       case EndedFirst(id, _, h) => db.between[h := id]
       case EndedSecond(_, h) => db.between - {h}
       case EndedLost(_, h) => db.between - {h}
       case _ => db.between)
  }

  predicate Runs(db: Db, run: seq<Statement>)
    decreases |run|
  {
    run == [] || (Enabled(db, run[0]) && Runs(Apply(db, run[0]), run[1..]))
  }

  function After(db: Db, run: seq<Statement>): Db
    requires Runs(db, run)
    decreases |run|
  {
    if run == [] then db else After(Apply(db, run[0]), run[1..])
  }

  // ----- Write-once rows

  /** An ended handler of the call is between its statements. */
  predicate Busy(db: Db, id: CallId) {
    exists h :: h in db.between && db.between[h] == id
  }

  /** The call's row, if there is one, has an end reason only with an end time, and has an end time while a handler is between. */
  predicate Sound(db: Db, id: CallId) {
    match RowOf(db, id)
    case None => true
    case Some(row) => (row.reason.Some? ==> row.endedAt.Some?) && (Busy(db, id) ==> row.endedAt.Some?)
  }

  /** A row inserted by a started handler while an ended handler, having found none, is between its statements. */
  predicate LateStart(db: Db, s: Statement) {
    s.Started? && RowOf(db, s.id).None? && Busy(db, s.id)
  }

  lemma BusyAfter(db: Db, s: Statement, id: CallId)
    requires Enabled(db, s)
    ensures s.EndedFirst? && s.id == id ==> Busy(Apply(db, s), id)
    ensures !(s.EndedFirst? && s.id == id) && Busy(Apply(db, s), id) ==> Busy(db, id)
    ensures !(s.EndedSecond? || s.EndedLost?) || s.id != id ==> (Busy(db, id) ==> Busy(Apply(db, s), id))
  {
    var db' := Apply(db, s);
    if s.EndedFirst? { assert s.handler in db'.between; }
    if Busy(db, id) {
      var h :| h in db.between && db.between[h] == id;
      assert !(s.EndedSecond? || s.EndedLost?) || s.id != id ==> h in db'.between && db'.between[h] == id;
    }
  }

  /** A statement keeps the row sound if and only if it is not a late start. */
  lemma SoundIff(db: Db, s: Statement)
    requires Sound(db, s.id) && Enabled(db, s)
    ensures Sound(Apply(db, s), s.id) <==> !LateStart(db, s)
  {
    BusyAfter(db, s, s.id);
  }

  lemma OtherCallsAreUntouched(db: Db, s: Statement, id: CallId)
    requires Enabled(db, s) && s.id != id
    ensures RowOf(Apply(db, s), id) == RowOf(db, id)
    ensures Busy(Apply(db, s), id) <==> Busy(db, id)
  {
    BusyAfter(db, s, id);
  }

  predicate HasLateStart(db: Db, run: seq<Statement>, id: CallId)
    requires Runs(db, run)
    decreases |run|
  {
    run != [] && ((run[0].id == id && LateStart(db, run[0])) || HasLateStart(Apply(db, run[0]), run[1..], id))
  }

  /** The call's row is sound now and after every statement of the run. */
  predicate SoundThroughout(db: Db, run: seq<Statement>, id: CallId)
    requires Runs(db, run)
    decreases |run|
  {
    Sound(db, id) && (run == [] || SoundThroughout(Apply(db, run[0]), run[1..], id))
  }

  /** Over every run: the row stays sound throughout if and only if the run has no late start of that call. */
  lemma {:induction false} SoundThroughoutIff(db: Db, run: seq<Statement>, id: CallId)
    requires Sound(db, id) && Runs(db, run)
    ensures SoundThroughout(db, run, id) <==> !HasLateStart(db, run, id)
    decreases |run|
  {
    if run != [] {
      var s, db' := run[0], Apply(db, run[0]);
      if s.id == id { SoundIff(db, s); } else { OtherCallsAreUntouched(db, s, id); }
      if Sound(db', id) {
        SoundThroughoutIff(db', run[1..], id);
      } else {
        assert !SoundThroughout(db', run[1..], id);
      }
    }
  }

  // ----- A reason without an end time

  /** What a reader must never see: an end reason on a row without an end time. */
  predicate ReasonWithoutEnd(db: Db, id: CallId) {
    id in db.table && db.table[id].reason.Some? && db.table[id].endedAt.None?
  }

  /** A second statement of an ended handler that finds the row open. */
  predicate CompletesOpenRow(db: Db, s: Statement, id: CallId) {
    s.EndedSecond? && s.id == id && id in db.table && db.table[id].endedAt.None? && db.table[id].reason.None?
  }

  predicate EverCompletesOpenRow(db: Db, run: seq<Statement>, id: CallId)
    requires Runs(db, run)
    decreases |run|
  {
    run != [] && (CompletesOpenRow(db, run[0], id) || EverCompletesOpenRow(Apply(db, run[0]), run[1..], id))
  }

  predicate EverReasonWithoutEnd(db: Db, run: seq<Statement>, id: CallId)
    requires Runs(db, run)
    decreases |run|
  {
    ReasonWithoutEnd(db, id) || (run != [] && EverReasonWithoutEnd(Apply(db, run[0]), run[1..], id))
  }

  lemma ReasonWithoutEndIff(db: Db, s: Statement, id: CallId)
    requires !ReasonWithoutEnd(db, id) && Enabled(db, s)
    ensures ReasonWithoutEnd(Apply(db, s), id) <==> CompletesOpenRow(db, s, id)
  {
    if s.id != id { OtherCallsAreUntouched(db, s, id); }
  }

  /** Over every run: the row ever has a reason without an end time if and only if some second statement finds it open. */
  lemma {:induction false} EverReasonWithoutEndIff(db: Db, run: seq<Statement>, id: CallId)
    requires !ReasonWithoutEnd(db, id) && Runs(db, run)
    ensures EverReasonWithoutEnd(db, run, id) <==> EverCompletesOpenRow(db, run, id)
    decreases |run|
  {
    if run != [] {
      var db' := Apply(db, run[0]);
      ReasonWithoutEndIff(db, run[0], id);
      if ReasonWithoutEnd(db', id) {
        assert EverReasonWithoutEnd(db', run[1..], id);
      } else {
        EverReasonWithoutEndIff(db', run[1..], id);
      }
    }
  }

  /** What a statement may do to a row: nothing once it is ended, but for giving an end reason where there is none. */
  predicate Keeps(row: Row, row': Row) {
    && (row.endedAt.Some? ==> row' == row || (row.reason.None? && row' == row.(reason := Some(Completed))))
    && (row.reason.Some? ==> row' == row)
  }

  lemma StatementKeepsRow(db: Db, s: Statement, id: CallId)
    requires Sound(db, id) && id in db.table && Enabled(db, s)
    ensures id in Apply(db, s).table && Keeps(db.table[id], Apply(db, s).table[id]) && Sound(Apply(db, s), id)
  {
    if s.id == id { SoundIff(db, s); } else { OtherCallsAreUntouched(db, s, id); }
  }

  lemma KeepsTransitive(a: Row, b: Row, c: Row)
    requires Keeps(a, b) && Keeps(b, c)
    ensures Keeps(a, c)
  {
  }

  /**
   * On an existing row, under every interleaving of any handlers' statements: an end time, once set,
   * is never changed, and neither reason ever replaces the other.
   */
  lemma {:induction false} WriteOnce(db: Db, run: seq<Statement>, id: CallId)
    requires Sound(db, id) && id in db.table && Runs(db, run)
    ensures id in After(db, run).table && Keeps(db.table[id], After(db, run).table[id])
    ensures Sound(After(db, run), id)
    decreases |run|
  {
    if run != [] {
      StatementKeepsRow(db, run[0], id);
      WriteOnce(Apply(db, run[0]), run[1..], id);
      KeepsTransitive(db.table[id], Apply(db, run[0]).table[id], After(db, run).table[id]);
    }
  }

  // ----- The row at rest

  predicate EndsCall(s: Statement, id: CallId) {
    s.id == id && (s.EndedFirst? || s.FailedUpsert?)
  }

  /** The first statement of the run that ends the call. */
  function FirstEnd(run: seq<Statement>, id: CallId): Option<Statement> {
    if run == [] then None else if EndsCall(run[0], id) then Some(run[0]) else FirstEnd(run[1..], id)
  }

  /** Some ended handler of the call made its second statement. */
  predicate SecondRan(run: seq<Statement>, id: CallId) {
    run != [] && ((run[0].EndedSecond? && run[0].id == id) || SecondRan(run[1..], id))
  }

  /** The reason an ended row has, given whether a second statement ran since. */
  function WithReason(row: Row, secondRan: bool): Row {
    if row.reason.None? && secondRan then row.(reason := Some(Completed)) else row
  }

  /** What the first end makes of the row, given whether a second statement of an ended handler ran. */
  function Verdict(row: Row, first: Option<Statement>, secondRan: bool): Row {
    if first.None? then row
    else match first.value
      case EndedFirst(_, end, _) => WithReason(Ended(row, end), secondRan)
      case FailedUpsert(_, f) => FailedRow(row, f)
      case _ => row
  }

  predicate IsOpen(db: Db, id: CallId) {
    id in db.table && db.table[id].endedAt.None? && db.table[id].reason.None? && !Busy(db, id)
  }

  lemma StatementOnEnded(db: Db, s: Statement, id: CallId)
    requires id in db.table && db.table[id].endedAt.Some? && Enabled(db, s)
    ensures id in Apply(db, s).table
    ensures Apply(db, s).table[id] == WithReason(db.table[id], s.EndedSecond? && s.id == id)
  {
    if s.id != id { OtherCallsAreUntouched(db, s, id); }
  }

  /** An ended row changes once at most: a second statement gives it a reason if it has none. */
  lemma {:induction false} EndedRowFrom(db: Db, run: seq<Statement>, id: CallId)
    requires id in db.table && db.table[id].endedAt.Some? && Runs(db, run)
    ensures id in After(db, run).table && After(db, run).table[id] == WithReason(db.table[id], SecondRan(run, id))
    decreases |run|
  {
    if run != [] {
      StatementOnEnded(db, run[0], id);
      EndedRowFrom(Apply(db, run[0]), run[1..], id);
    }
  }

  lemma FirstEndWrites(db: Db, s: Statement, id: CallId)
    requires IsOpen(db, id) && Enabled(db, s) && EndsCall(s, id)
    ensures var db' := Apply(db, s);
            id in db'.table && db'.table[id].endedAt.Some? && db'.table[id] == Verdict(db.table[id], Some(s), false)
  {
  }

  lemma StillOpen(db: Db, s: Statement, id: CallId)
    requires IsOpen(db, id) && Enabled(db, s) && !EndsCall(s, id)
    ensures IsOpen(Apply(db, s), id) && Apply(db, s).table[id] == db.table[id] && !(s.EndedSecond? && s.id == id)
  {
    if s.id == id {
      BusyAfter(db, s, id);
      assert !Busy(db, id);
    } else {
      OtherCallsAreUntouched(db, s, id);
    }
  }

  /**
   * For an open row with no handler under way, whatever statements of whatever handlers follow in
   * whatever order, failed ones included: at every moment the row is what the first end makes of it,
   * with the reason `completed` once any ended handler's second statement has run. So it has an end
   * time without a reason if and only if the first end is an `ended` and no such statement has run.
   */
  lemma {:induction false} FirstEndDecides(db: Db, run: seq<Statement>, id: CallId)
    requires IsOpen(db, id) && Runs(db, run)
    ensures id in After(db, run).table
    ensures After(db, run).table[id] == Verdict(db.table[id], FirstEnd(run, id), SecondRan(run, id))
    ensures var row, first := After(db, run).table[id], FirstEnd(run, id);
            (row.endedAt.Some? && row.reason.None? <==> first.Some? && first.value.EndedFirst? && !SecondRan(run, id))
            && (row.reason.Some? ==> row.endedAt.Some?)
    decreases |run|
  {
    if run != [] {
      var s, db' := run[0], Apply(db, run[0]);
      if EndsCall(s, id) {
        FirstEndWrites(db, s, id);
        EndedRowFrom(db', run[1..], id);
      } else {
        StillOpen(db, s, id);
        FirstEndDecides(db', run[1..], id);
      }
    }
  }

  // ----- Calls whose row comes during the run

  /** The run from the call's first statement on. */
  function FromFirst(run: seq<Statement>, id: CallId): (r: seq<Statement>)
    ensures r != [] ==> r[0].id == id
  {
    if run == [] || run[0].id == id then run else FromFirst(run[1..], id)
  }

  predicate IsAbsent(db: Db, id: CallId) { id !in db.table && !Busy(db, id) }

  lemma StartOpens(db: Db, s: Statement, id: CallId)
    requires IsAbsent(db, id) && Enabled(db, s) && s.Started? && s.id == id
    ensures IsOpen(Apply(db, s), id) && Apply(db, s).table[id] == Fresh(s.start)
  {
    BusyAfter(db, s, id);
  }

  /** A started call that has not ended: what the start said, and nothing else. */
  predicate SaysStart(row: Row, start: Start) {
    && row.origin == start.origin && row.trunkId == start.trunkId && row.recorded == start.recorded
    && row.endedAt.None? && row.answeredAt.None? && row.reason.None? && row.duration.None? && row.exitNodeKey.None?
  }

  /** A call whose failure came first: what the failure said, without an entry node. */
  predicate SaysFailure(row: Row, f: Failure) {
    && row.origin.entryNodeKey.None? && row.origin == f.origin.(entryNodeKey := None)
    && row.endedAt == Some(f.end.endedAt) && row.answeredAt == f.end.answeredAt && row.duration == f.end.duration
    && row.exitNodeKey == f.end.exitNodeKey && row.reason == Some(Failed) && row.trunkId == f.trunkId && row.recorded == f.recorded
  }

  /** What is in the row of a call whose first statement the run holds. */
  lemma {:induction false} NewRowSays(db: Db, run: seq<Statement>, id: CallId)
    requires IsAbsent(db, id) && Runs(db, run) && FromFirst(run, id) != []
    ensures var h, table := FromFirst(run, id), After(db, run).table;
            && (h[0].Started? && FirstEnd(h[1..], id).None? ==> id in table && SaysStart(table[id], h[0].start))
            && (h[0].Started? && FirstEnd(h[1..], id).Some? ==> id in table && table[id].origin == h[0].start.origin && table[id].endedAt.Some?)
            && (h[0].FailedUpsert? ==> id in table && SaysFailure(table[id], h[0].failure))
  {
    NewRowFromFirst(db, run, id);
    var h := FromFirst(run, id);
    if h[0].Started? { FirstEndEnds(h[1..], id); }
  }

  /**
   * For a call without a row and without a handler under way: a run that starts it leaves the fresh row
   * with the verdict of what follows, a run that begins with its failure leaves that failure's row for
   * good, and a run without a statement of the call leaves none.
   */
  lemma {:induction false} NewRowFromFirst(db: Db, run: seq<Statement>, id: CallId)
    requires IsAbsent(db, id) && Runs(db, run)
    ensures var h, table := FromFirst(run, id), After(db, run).table;
            && (h == [] ==> id !in table)
            && (h != [] && h[0].Started? ==> id in table && table[id] == Verdict(Fresh(h[0].start), FirstEnd(h[1..], id), SecondRan(h[1..], id)))
            && (h != [] && h[0].FailedUpsert? ==> id in table && table[id] == FailedFromNothing(h[0].failure))
    decreases |run|
  {
    if run != [] {
      var s, db' := run[0], Apply(db, run[0]);
      if s.id != id {
        OtherCallsAreUntouched(db, s, id);
        NewRowFromFirst(db', run[1..], id);
      } else if s.Started? {
        StartOpens(db, s, id);
        FirstEndDecides(db', run[1..], id);
      } else if s.FailedUpsert? {
        EndedRowFrom(db', run[1..], id);
      }
    }
  }

  /**
   * What the first end leaves in the row's fields, whatever follows: the end time and exit node are its
   * own; the answer time is its own or else the row's; an `ended` event's duration replaces the row's, a
   * `failed` event's only where it has one; a failure may add a trunk or a recording.
   */
  lemma {:induction false} FirstEndFields(db: Db, run: seq<Statement>, id: CallId)
    requires IsOpen(db, id) && Runs(db, run) && FirstEnd(run, id).Some?
    ensures id in After(db, run).table
    ensures var before, row, first := db.table[id], After(db, run).table[id], FirstEnd(run, id).value;
            && row.origin == before.origin
            && (first.EndedFirst? ==>
                  && row.endedAt == Some(first.end.endedAt) && row.exitNodeKey == first.end.exitNodeKey && row.duration == first.end.duration
                  && row.answeredAt == (if first.end.answeredAt.Some? then first.end.answeredAt else before.answeredAt)
                  && row.trunkId == before.trunkId && row.recorded == before.recorded)
            && (first.FailedUpsert? ==>
                  var f := first.failure;
                  && row.reason == Some(Failed) && row.endedAt == Some(f.end.endedAt) && row.exitNodeKey == f.end.exitNodeKey
                  && row.duration == (if f.end.duration.Some? then f.end.duration else before.duration)
                  && row.answeredAt == (if f.end.answeredAt.Some? then f.end.answeredAt else before.answeredAt)
                  && row.trunkId == (if f.trunkId.Some? then f.trunkId else before.trunkId)
                  && row.recorded == (before.recorded || f.recorded))
  {
    FirstEndDecides(db, run, id);
    FirstEndEnds(run, id);
  }

  lemma {:induction false} FirstEndEnds(run: seq<Statement>, id: CallId)
    ensures FirstEnd(run, id).Some? ==> EndsCall(FirstEnd(run, id).value, id)
  {
    if run != [] { FirstEndEnds(run[1..], id); }
  }

  predicate LostSecond(s: Statement, id: CallId) { s.EndedLost? && s.id == id }

  predicate NoneLost(run: seq<Statement>, id: CallId) {
    forall i :: 0 <= i < |run| ==> !LostSecond(run[i], id)
  }

  /** A handler leaves by its second statement or by losing it. */
  lemma {:induction false} BusyUntilSecond(db: Db, run: seq<Statement>, id: CallId)
    requires Runs(db, run) && Busy(db, id) && !Busy(After(db, run), id) && NoneLost(run, id)
    ensures SecondRan(run, id)
    decreases |run|
  {
    if run != [] && !(run[0].EndedSecond? && run[0].id == id) {
      assert !LostSecond(run[0], id);
      BusyAfter(db, run[0], id);
      NoneLostLater(run, id);
      BusyUntilSecond(Apply(db, run[0]), run[1..], id);
    }
  }

  lemma NoneLostLater(run: seq<Statement>, id: CallId)
    requires run != [] && NoneLost(run, id)
    ensures NoneLost(run[1..], id)
  {
    forall i | 0 <= i < |run[1..]| ensures !LostSecond(run[1..][i], id) { assert run[1..][i] == run[i + 1]; }
  }

  lemma {:induction false} SecondFollowsFirst(db: Db, run: seq<Statement>, id: CallId)
    requires IsOpen(db, id) && Runs(db, run) && NoneLost(run, id) && !Busy(After(db, run), id)
    ensures FirstEnd(run, id).Some? && FirstEnd(run, id).value.EndedFirst? ==> SecondRan(run, id)
    decreases |run|
  {
    if run != [] {
      var s, db' := run[0], Apply(db, run[0]);
      NoneLostLater(run, id);
      if EndsCall(s, id) {
        if s.EndedFirst? {
          BusyAfter(db, s, id);
          BusyUntilSecond(db', run[1..], id);
        }
      } else {
        StillOpen(db, s, id);
        SecondFollowsFirst(db', run[1..], id);
      }
    }
  }

  /** At rest, where no second statement was lost, end time and reason are set together. */
  lemma {:induction false} SetTogetherAtRest(db: Db, run: seq<Statement>, id: CallId)
    requires IsOpen(db, id) && Runs(db, run) && NoneLost(run, id) && !Busy(After(db, run), id)
    ensures id in After(db, run).table && (After(db, run).table[id].endedAt.None? <==> After(db, run).table[id].reason.None?)
  {
    FirstEndDecides(db, run, id);
    SecondFollowsFirst(db, run, id);
  }

  /**
   * The late start: an ended handler finds no row, the row comes, the handler's second statement
   * calls it completed without an end time, and a failure then replaces that reason.
   */
  lemma LateStartIsOverwritten(id: CallId, start: Start, end: End, f: Failure)
    ensures var run := [EndedFirst(id, end, 0), Started(id, start), EndedSecond(id, 0)];
            var db := Db(map[], map[]);
            && Runs(db, run)
            && var db' := After(db, run);
               && id in db'.table && db'.table[id].endedAt == None && db'.table[id].reason == Some(Completed)
               && Apply(db', FailedUpsert(id, f)).table[id].reason == Some(Failed)
  {
    var db0 := Db(map[], map[]);
    var s0, s1, s2 := EndedFirst(id, end, 0), Started(id, start), EndedSecond(id, 0);
    var db1 := Apply(db0, s0);
    var db2 := Apply(db1, s1);
    var db3 := Apply(db2, s2);
    assert [s0, s1, s2][1..] == [s1, s2] && [s1, s2][1..] == [s2] && [s2][1..] == [];
    assert Runs(db3, []) && After(db3, []) == db3;
    assert Enabled(db2, s2) && Runs(db2, [s2]);
    assert After(db2, [s2]) == After(db3, [s2][1..]);
    assert Runs(db2, [s2]) && After(db2, [s2]) == db3;
    assert Runs(db1, [s1, s2]) && After(db1, [s1, s2]) == db3;
  }

  // ----- The listener

  lemma {:induction false} RunsOn(db: Db, run: seq<Statement>, s: Statement)
    requires Runs(db, run) && Enabled(After(db, run), s)
    ensures Runs(db, run + [s]) && After(db, run + [s]) == Apply(After(db, run), s)
    decreases |run|
  {
    if run == [] {
      assert (run + [s])[1..] == [];
    } else {
      RunsOn(Apply(db, run[0]), run[1..], s);
      assert (run + [s])[1..] == run[1..] + [s];
    }
  }

  class Listener {
    var table: map<CallId, Row>
    var between: map<int, CallId>
    ghost var origin: Db
    ghost var history: seq<Statement>

    ghost function View(): Db
      reads this
    {
      Db(table, between)
    }

    /** The table is where the statements made so far lead. */
    ghost predicate Valid()
      reads this
    {
      Runs(origin, history) && View() == After(origin, history)
    }

    constructor (table: map<CallId, Row>)
      ensures Valid() && this.table == table && origin == Db(table, map[]) && history == []
    {
      this.table, between, origin, history := table, map[], Db(table, map[]), [];
    }

    ghost method Record(s: Statement, was: Db)
      requires Runs(origin, history) && was == After(origin, history) && Enabled(was, s) && View() == Apply(was, s)
      modifies this`history
      ensures Valid() && history == old(history) + [s]
    {
      RunsOn(origin, history, s);
      history := history + [s];
    }

    method HandleCallStarted(id: CallId, start: Start)
      requires Valid()
      modifies this`table, this`history
      ensures Valid() && View() == Apply(old(View()), Started(id, start)) && history == old(history) + [Started(id, start)]
    {
      ghost var was := View();
      if id !in table {
        table := table[id := Row(start.origin, None, None, None, None, None, start.trunkId, start.recorded)];
      }
      Record(Started(id, start), was);
    }

    method EndCall(id: CallId, end: End, handler: int)
      requires Valid() && handler !in between
      modifies this`table, this`between, this`history
      ensures Valid() && View() == Apply(old(View()), EndedFirst(id, end, handler)) && history == old(history) + [EndedFirst(id, end, handler)]
    {
      ghost var was := View();
      if id in table && table[id].endedAt.None? {
        var row := table[id];
        table := table[id := row.(endedAt := Some(end.endedAt),
                                  answeredAt := if end.answeredAt.Some? then end.answeredAt else row.answeredAt,
                                  duration := end.duration,
                                  exitNodeKey := end.exitNodeKey)];
      }
      between := between[handler := id];
      Record(EndedFirst(id, end, handler), was);
    }

    /** The second statement, unless it fails: the error is caught and nothing is written. */
    method CompleteCall(id: CallId, handler: int, fails: bool)
      requires Valid() && handler in between && between[handler] == id
      modifies this`table, this`between, this`history
      ensures Valid() && history == old(history) + [if fails then EndedLost(id, handler) else EndedSecond(id, handler)]
      ensures View() == Apply(old(View()), if fails then EndedLost(id, handler) else EndedSecond(id, handler))
    {
      ghost var was := View();
      if !fails && id in table && table[id].reason.None? {
        table := table[id := table[id].(reason := Some(Completed))];
      }
      between := between - {handler};
      Record(if fails then EndedLost(id, handler) else EndedSecond(id, handler), was);
    }

    method HandleCallFailed(id: CallId, f: Failure)
      requires Valid()
      modifies this`table, this`history
      ensures Valid() && View() == Apply(old(View()), FailedUpsert(id, f)) && history == old(history) + [FailedUpsert(id, f)]
    {
      ghost var was := View();
      if id !in table {
        table := table[id := FailedFromNothing(f)];
      } else if table[id].endedAt.None? {
        table := table[id := FailedRow(table[id], f)];
      }
      Record(FailedUpsert(id, f), was);
    }

    /** The laws of the statements, of a call that was open or had no row when the listener started. */
    lemma Laws(id: CallId)
      requires Valid()
      ensures IsOpen(origin, id) ==>
                && id in table && table[id] == Verdict(origin.table[id], FirstEnd(history, id), SecondRan(history, id))
                && Keeps(origin.table[id], table[id]) && Sound(View(), id)
      ensures IsAbsent(origin, id) ==>
                var h := FromFirst(history, id);
                && (h == [] ==> id !in table)
                && (h != [] && h[0].Started? ==> id in table && table[id] == Verdict(Fresh(h[0].start), FirstEnd(h[1..], id), SecondRan(h[1..], id)))
                && (h != [] && h[0].FailedUpsert? ==> id in table && table[id] == FailedFromNothing(h[0].failure))
    {
      if IsOpen(origin, id) {
        FirstEndDecides(origin, history, id);
        WriteOnce(origin, history, id);
      }
      if IsAbsent(origin, id) { NewRowFromFirst(origin, history, id); }
    }
  }
}
