/**
 * Reconciliation of one admitted plate: the existence query for an IN row,
 * then log_exit or log_entry, the status shown on screen and the
 * notifications posted to the dashboard, in order.
 */
module Reconciliation {

  /** The answer of the query for a parking_log row of the plate with status IN. */
  datatype Query = InRow | NoInRow | QueryRaised

  /** The fields of an exit record: fee, minutes parked, entry and exit times. */
  datatype ExitInfo = ExitInfo(amount: int, durationMin: int, entryTime: string, exitTime: string)

  /**
   * What log_exit or log_entry hands back: a record carrying an amount
   * (a dict or an object with that attribute), a string, any other value,
   * or an exception.
   */
  datatype Reply = Record(info: ExitInfo) | Text(s: string) | OtherValue | Raised

  /** The ledger transaction a detection triggered. */
  datatype LedgerCall = NoCall | LogExit(plate: string) | LogEntry(plate: string)

  /** The message on screen, one constructor per distinct message. */
  datatype Status =
    | Prompt                                   // press 'c' to detect
    | Billed(amount: int, durationMin: int)    // exit billed
    | Locked                                   // database locked, try again
    | EntryNotFound(plate: string)
    | StoreError(plate: string)                // the ledger answered "db_error"
    | ExitFailed(plate: string)                // any other exit answer
    | AlreadyInside(plate: string)             // entry refused: already parked
    | LotFull(plate: string)
    | EntryLogged(plate: string)
    | StoreException(plate: string)            // an exception reached the handler

  /** The JSON body of a notification. */
  datatype Body =
    | EmptyBody
    | ExitPending(plate: string, amount: int, duration: int, entryTime: string, exitTime: string)
    | EntryRecorded(plate: string, entryTime: string)

  /** An HTTP POST to the dashboard. */
  datatype Notification = Post(endpoint: string, body: Body)

  datatype Outcome = Outcome(call: LedgerCall, status: Status, notes: seq<Notification>)

  const PlateDetectedEndpoint: string := "/api/plate_detected"

  function PendingExitEndpoint(plate: string): string {
    "/api/set_pending_exit/" + plate
  }

  /** The exit branch once log_exit has answered. */
  function ExitOutcome(plate: string, reply: Reply): Outcome {
    var call := LogExit(plate);
    match reply
    case Record(info) =>
      Outcome(call, Billed(info.amount, info.durationMin),
        [Post(PendingExitEndpoint(plate), EmptyBody),
         Post(PlateDetectedEndpoint, ExitPending(plate, info.amount, info.durationMin, info.entryTime, info.exitTime))])
    case Raised => Outcome(call, StoreException(plate), [])
    case Text(s) =>
      if s == "db_locked" then Outcome(call, Locked, [])
      else if s == "not_found" then Outcome(call, EntryNotFound(plate), [])
      else if s == "db_error" then Outcome(call, StoreError(plate), [])
      else Outcome(call, ExitFailed(plate), [])
    case OtherValue => Outcome(call, ExitFailed(plate), [])
  }

  /** The answers of log_entry that refuse the entry. */
  const Refusals: set<Reply> := {Text("already_in"), Text("db_locked"), Text("full")}

  /**
   * The entry branch once log_entry has answered. Every answer that is not
   * one of the three refusals counts as a logged entry.
   */
  function EntryOutcome(plate: string, reply: Reply, clock: string): Outcome {
    var call := LogEntry(plate);
    if reply.Raised? then Outcome(call, StoreException(plate), [])
    else if reply == Text("already_in") then Outcome(call, AlreadyInside(plate), [])
    else if reply == Text("db_locked") then Outcome(call, Locked, [])
    else if reply == Text("full") then Outcome(call, LotFull(plate), [])
    else Outcome(call, EntryLogged(plate), [Post(PlateDetectedEndpoint, EntryRecorded(plate, clock))])
  }

  /**
   * Reconciliation of an admitted plate. `exitReply` and `entryReply` are
   * what log_exit and log_entry would answer; `clock` is the wall-clock
   * time sent with an entry notification.
   */
  function Reconcile(plate: string, query: Query, exitReply: Reply, entryReply: Reply, clock: string): (o: Outcome)
    ensures o.call.LogExit? <==> query == InRow
    ensures o.call.LogEntry? <==> query == NoInRow
    ensures o.call.NoCall? <==> query == QueryRaised
    ensures !o.call.NoCall? ==> o.call.plate == plate
    ensures o.notes != [] <==>
      (query == InRow && exitReply.Record?)
      || (query == NoInRow && !entryReply.Raised? && entryReply !in Refusals)
  {
    match query
    case QueryRaised => Outcome(NoCall, StoreException(plate), [])
    case InRow => ExitOutcome(plate, exitReply)
    case NoInRow => EntryOutcome(plate, entryReply, clock)
  }

  /** The transaction succeeded from the terminal's point of view. */
  predicate Succeeded(s: Status) {
    s.Billed? || s.EntryLogged?
  }

  /**
   * The dashboard hears of a detection exactly when it was billed or logged;
   * every other outcome only changes the screen.
   */
  lemma NotifiesExactlyOnSuccess(plate: string, query: Query, exitReply: Reply, entryReply: Reply, clock: string)
    ensures var o := Reconcile(plate, query, exitReply, entryReply, clock);
      (o.notes != [] <==> Succeeded(o.status)) && |o.notes| <= 2
  {
  }

  /**
   * An exit answered with a record posts two notifications, in order: the
   * pending exit for the plate, then the exit_pending status carrying the
   * record's amount, duration and times.
   */
  lemma ExitRecordNotifications(plate: string, info: ExitInfo, entryReply: Reply, clock: string)
    ensures var o := Reconcile(plate, InRow, Record(info), entryReply, clock);
      o.status == Billed(info.amount, info.durationMin) &&
      o.notes == [Post("/api/set_pending_exit/" + plate, EmptyBody),
                  Post("/api/plate_detected", ExitPending(plate, info.amount, info.durationMin, info.entryTime, info.exitTime))]
  {
  }

  /**
   * An entry answered with anything but already_in, db_locked, full or an
   * exception is reported as logged and posts one entry_logged notification;
   * this includes answers such as "db_error" that the exit branch treats as errors.
   */
  lemma EntryCatchAllIsSuccess(plate: string, exitReply: Reply, entryReply: Reply, clock: string)
    requires !entryReply.Raised?
    requires entryReply !in Refusals
    ensures var o := Reconcile(plate, NoInRow, exitReply, entryReply, clock);
      o.status == EntryLogged(plate) && o.notes == [Post("/api/plate_detected", EntryRecorded(plate, clock))]
  {
  }

  /** Every notification concerns the detected plate, by its endpoint or its body. */
  lemma NotificationsNamePlate(plate: string, query: Query, exitReply: Reply, entryReply: Reply, clock: string)
    ensures forall n :: n in Reconcile(plate, query, exitReply, entryReply, clock).notes ==>
      n.endpoint == PendingExitEndpoint(plate) || (!n.body.EmptyBody? && n.body.plate == plate)
  {
  }

  /**
   * The status shown for each exit answer that is not a record: a locked
   * store, a missing entry, a store error, an exception, or any other answer.
   */
  lemma ExitAnswerStatus(plate: string, exitReply: Reply, entryReply: Reply, clock: string)
    ensures var o := Reconcile(plate, InRow, exitReply, entryReply, clock);
      (exitReply == Text("db_locked") ==> o.status == Locked)
      && (exitReply == Text("not_found") ==> o.status == EntryNotFound(plate))
      && (exitReply == Text("db_error") ==> o.status == StoreError(plate))
      && (exitReply.Text? && exitReply.s !in {"db_locked", "not_found", "db_error"} ==> o.status == ExitFailed(plate))
      && (exitReply.OtherValue? ==> o.status == ExitFailed(plate))
      && (exitReply.Raised? ==> o.status == StoreException(plate))
  {
  }

  /**
   * The status shown for each refused or failed entry, and for a failed
   * query: the three refusals each have their own message, an exception
   * reports a store exception.
   */
  lemma EntryAnswerStatus(plate: string, exitReply: Reply, entryReply: Reply, clock: string)
    ensures var o := Reconcile(plate, NoInRow, exitReply, entryReply, clock);
      (entryReply == Text("already_in") ==> o.status == AlreadyInside(plate))
      && (entryReply == Text("db_locked") ==> o.status == Locked)
      && (entryReply == Text("full") ==> o.status == LotFull(plate))
      && (entryReply.Raised? ==> o.status == StoreException(plate))
    ensures Reconcile(plate, QueryRaised, exitReply, entryReply, clock).status == StoreException(plate)
  {
  }
}
