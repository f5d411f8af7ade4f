/**
 * The repositories over one database context. The tables are a `Db` value:
 * users keyed by their Telegram id (the principal key the operations refer
 * to), operations keyed by id, and the instance and reminder tables in row
 * order. Each table has an identity counter; inserting assigns the next value.
 *
 * `Store` is the context: its loads materialise fresh entity objects with the
 * navigations the query includes, and its writes save an entity (and the
 * graph reachable from it) back, appending one event to the journal.
 */
module Persistence {
  import opened Wrappers
  import opened Tables
  import opened Journal
  import D = Domain

  datatype Db = Db(
    users: map<int, D.TelegramUser>,
    operations: map<int, D.OperationRow>,
    instances: seq<D.InstanceRow>,
    reminders: seq<D.ReminderRow>,
    lastUserId: nat, lastOperationId: nat, lastInstanceId: nat, lastReminderId: nat)

  const Empty := Db(map[], map[], [], [], 0, 0, 0, 0)

  function InstanceId(r: D.InstanceRow): int { r.id }
  function ReminderId(r: D.ReminderRow): int { r.id }

  /** `Where(r => r.OperationId == operationId)` on the reminder table, in table order. */
  function RemindersOf(rows: seq<D.ReminderRow>, operationId: int): (r: seq<D.ReminderRow>)
    ensures forall x :: x in r <==> x in rows && x.operationId == operationId
  {
    if rows == [] then []
    else
      var n := |rows| - 1;
      assert rows == rows[..n] + [rows[n]];
      RemindersOf(rows[..n], operationId) + (if rows[n].operationId == operationId then [rows[n]] else [])
  }

  /** `RemindersOf` over one more row of the table. */
  lemma RemindersOfStep(rows: seq<D.ReminderRow>, i: nat, operationId: int)
    requires i < |rows|
    ensures RemindersOf(rows[..i + 1], operationId)
         == RemindersOf(rows[..i], operationId) + (if rows[i].operationId == operationId then [rows[i]] else [])
  {
    assert rows[..i + 1][..i] == rows[..i];
  }

  function ReminderNotOf(operationId: int): D.ReminderRow -> bool {
    (r: D.ReminderRow) => r.operationId != operationId
  }

  function InstanceNotOf(operationId: int): D.InstanceRow -> bool {
    (r: D.InstanceRow) => r.operationId != operationId
  }

  function ReminderIdIsNot(id: int): D.ReminderRow -> bool {
    (r: D.ReminderRow) => r.id != id
  }

  /**
   * The table invariants: keys agree with the rows, ids are positive, unique
   * and no greater than the identity counter of their table.
   */
  predicate Consistent(db: Db) {
    (forall t :: t in db.users ==> db.users[t].telegramId == t && 0 < db.users[t].id <= db.lastUserId)
    && (forall k :: k in db.operations ==> db.operations[k].id == k && 0 < k <= db.lastOperationId)
    && UniqueKeys(db.instances, InstanceId)
    && (forall r :: r in db.instances ==> 0 < r.id <= db.lastInstanceId)
    && UniqueKeys(db.reminders, ReminderId)
    && (forall r :: r in db.reminders ==> 0 < r.id <= db.lastReminderId)
  }

  /** The empty database is consistent. */
  lemma EmptyIsConsistent()
    ensures Consistent(Empty)
  {
  }

  /** Saving an instance row: insert it when it is new, else overwrite the row with its id. */
  function PutInstance(db: Db, row: D.InstanceRow, isNew: bool): (r: Db)
    ensures r.users == db.users && r.operations == db.operations && r.reminders == db.reminders
    ensures isNew ==> r.instances == db.instances + [row]
    ensures !isNew ==> |r.instances| == |db.instances|
  {
    if isNew then db.(instances := db.instances + [row], lastInstanceId := db.lastInstanceId + 1)
    else db.(instances := Replace(db.instances, InstanceId, row))
  }

  /**
   * Saving an instance row keeps the tables consistent, and afterwards the
   * row found under its id is the saved row.
   */
  lemma PutInstanceConsistent(db: Db, row: D.InstanceRow, isNew: bool)
    requires Consistent(db)
    requires isNew ==> row.id == db.lastInstanceId + 1
    requires !isNew ==> 0 < row.id <= db.lastInstanceId
    ensures Consistent(PutInstance(db, row, isNew))
    ensures isNew || Find(db.instances, InstanceId, row.id).Some? ==>
      Find(PutInstance(db, row, isNew).instances, InstanceId, row.id) == Some(row)
  {
    if isNew {
      AppendUnique(db.instances, InstanceId, row);
      FindAppend(db.instances, InstanceId, row, row.id);
    } else {
      ReplaceUnique(db.instances, InstanceId, row);
      var r := Replace(db.instances, InstanceId, row);
      assert forall x :: x in r ==> x == row || x in db.instances;
      FindReplaced(db.instances, InstanceId, row);
    }
  }

  /** The database context shared by the repositories. */
  class Store {
    var db: Db
    ghost const log: Log

    constructor (ghost log: Log)
      ensures db == Empty && this.log == log
    {
      db := Empty;
      this.log := log;
    }

    /** `TelegramUserRepository.IsExistAsync`: a user with this Telegram id exists. */
    predicate UserExists(telegramId: int)
      reads this
    {
      telegramId in db.users
    }

    /** `GetEntityByFilterAsync(u => u.TelegramId == telegramId)` on the users. */
    function FindUser(telegramId: int): (r: Option<D.TelegramUser>)
      reads this
      ensures r.Some? <==> UserExists(telegramId)
      ensures r.Some? ==> r.value.telegramId == telegramId || !Consistent(db)
    {
      if telegramId in db.users then Some(db.users[telegramId]) else None
    }

    /** Inserts a user; the unique Telegram id index admits one user per Telegram id. */
    method InsertUser(telegramId: int) returns (user: D.TelegramUser)
      requires Consistent(db) && telegramId !in db.users
      modifies this, log
      ensures user == D.TelegramUser(old(db.lastUserId) + 1, telegramId)
      ensures db == old(db).(users := old(db.users)[telegramId := user], lastUserId := user.id)
      ensures Consistent(db)
      ensures log.events == old(log.events) + [Inserted(Users)]
    {
      user := D.TelegramUser(db.lastUserId + 1, telegramId);
      db := db.(users := db.users[telegramId := user], lastUserId := user.id);
      log.events := log.events + [Inserted(Users)];
    }

    /** The reminders of an operation, materialised without their navigation. */
    method LoadReminders(operationId: int) returns (rs: seq<D.Reminder>)
      ensures D.ReminderRows(rs) == RemindersOf(db.reminders, operationId)
      ensures forall r :: r in rs ==> fresh(r) && r.operation == null
    {
      rs := [];
      ghost var rows: seq<D.ReminderRow> := [];
      var i := 0;
      while i < |db.reminders|
        invariant 0 <= i <= |db.reminders|
        invariant rows == RemindersOf(db.reminders[..i], operationId)
        invariant Loaded(rs, rows)
        invariant forall k :: 0 <= k < |rs| ==> fresh(rs[k])
      {
        RemindersOfStep(db.reminders, i, operationId);
        if db.reminders[i].operationId == operationId {
          rs := Materialise(rs, db.reminders[i], rows);
          rows := rows + [db.reminders[i]];
        }
        i := i + 1;
      }
      assert db.reminders[..i] == db.reminders;
    }

    /** `rs` are the reminders of `rows`, in order, without their navigation. */
    ghost predicate Loaded(rs: seq<D.Reminder>, rows: seq<D.ReminderRow>)
      reads rs
    {
      |rs| == |rows| && forall k :: 0 <= k < |rs| ==> rs[k].Row() == rows[k] && rs[k].operation == null
    }

    /** Appends a reminder object loaded from `row`, without its navigation. */
    method Materialise(rs: seq<D.Reminder>, row: D.ReminderRow, ghost rows: seq<D.ReminderRow>)
      returns (rs': seq<D.Reminder>)
      requires Loaded(rs, rows)
      ensures Loaded(rs', rows + [row])
      ensures rs' == rs + [rs'[|rs|]] && fresh(rs'[|rs|])
    {
      var r := new D.Reminder.Load(row, null);
      rs' := rs + [r];
    }

    /** `GetEntityByFilterAsync(op => op.Id == id)`: no navigation is loaded. */
    method FindOperation(id: int) returns (op: D.Operation?)
      ensures op == null <==> id !in db.operations
      ensures op != null ==>
        fresh(op) && op.next == null && op.reminders.None?
        && op.Row() == db.operations[id].(nextInstanceId := None)
    {
      if id !in db.operations {
        return null;
      }
      op := new D.Operation.Load(db.operations[id], null, None);
    }

    /** `GetWithRemindersAsync(op => op.Id == id)`: the reminders are loaded. */
    method FindOperationWithReminders(id: int) returns (op: D.Operation?)
      ensures op == null <==> id !in db.operations
      ensures op != null ==>
        fresh(op) && op.next == null
        && op.Row() == db.operations[id].(nextInstanceId := None)
        && op.reminders.Some? && D.LoadedRows(op.reminders) == Some(RemindersOf(db.reminders, id))
        && forall r :: r in op.reminders.value ==> fresh(r) && r.operation == null
    {
      if id !in db.operations {
        return null;
      }
      var rs := LoadReminders(id);
      op := new D.Operation.Load(db.operations[id], null, Some(rs));
    }

    /**
     * `GetWithDetailsForProcessJobAsync(op => op.Id == id)`: the pending
     * instance and the reminders are loaded.
     */
    method FindOperationWithDetails(id: int) returns (op: D.Operation?)
      ensures op == null <==> id !in db.operations
      ensures op != null ==> fresh(op) && op.history.None? && op.reminders.Some?
      ensures op != null ==> D.LoadedRows(op.reminders) == Some(RemindersOf(db.reminders, id))
      ensures op != null ==> forall r :: r in op.reminders.value ==> fresh(r) && r.operation == null
      ensures op != null ==> (op.next == null <==> PendingRow(db, id).None?)
      ensures op != null && op.next != null ==>
        fresh(op.next) && op.next.Row() == PendingRow(db, id).value && op.Row() == db.operations[id]
      ensures op != null && op.next == null ==> op.Row() == db.operations[id].(nextInstanceId := None)
    {
      if id !in db.operations {
        return null;
      }
      var row := db.operations[id];
      var next: D.OperationInstance? := null;
      var pending := PendingRow(db, id);
      if pending.Some? {
        next := new D.OperationInstance.Load(pending.value);
      }
      var rs := LoadReminders(id);
      op := new D.Operation.Load(row, next, Some(rs));
    }

    /**
     * Inserts a new operation with the instances of its history: the operation
     * and then each instance receive the next identity values, and each
     * instance's `OperationId` is fixed up to the operation's new id.
     */
    method InsertOperation(op: D.Operation)
      requires Consistent(db)
      requires op.id == 0 && op.history.Some?
      requires forall i, j :: 0 <= i < j < |op.history.value| ==> op.history.value[i] != op.history.value[j]
      requires op.next == null || op.next in op.history.value
      modifies this, log, op, op.history.value
      ensures op.id == old(db.lastOperationId) + 1
      ensures op.theme == old(op.theme) && op.description == old(op.description)
      ensures op.startDate == old(op.startDate) && op.cron == old(op.cron)
      ensures op.telegramUserId == old(op.telegramUserId)
      ensures op.next == old(op.next) && op.history == old(op.history) && op.reminders == old(op.reminders)
      ensures D.InstanceRows(op.history.value) == Numbered(old(D.InstanceRows(op.history.value)), old(db.lastInstanceId) + 1, op.id)
      ensures db == WithOperation(old(db), op.Row(), D.InstanceRows(op.history.value))
      ensures Consistent(db)
      ensures log.events == old(log.events) + [Inserted(Operations)]
    {
      AssignIds(op, db.lastOperationId + 1, db.lastInstanceId + 1);
      SaveOperation(op);
    }

    /** The identity values an insert gives the operation and its history. */
    method AssignIds(op: D.Operation, id: int, first: int)
      requires op.history.Some?
      requires forall i, j :: 0 <= i < j < |op.history.value| ==> op.history.value[i] != op.history.value[j]
      modifies op, op.history.value
      ensures op.id == id
      ensures op.theme == old(op.theme) && op.description == old(op.description)
      ensures op.startDate == old(op.startDate) && op.cron == old(op.cron)
      ensures op.telegramUserId == old(op.telegramUserId)
      ensures op.next == old(op.next) && op.history == old(op.history) && op.reminders == old(op.reminders)
      ensures D.InstanceRows(op.history.value) == Numbered(old(D.InstanceRows(op.history.value)), first, id)
    {
      ghost var before := D.InstanceRows(op.history.value);
      NumberInstances(op.history.value, first, id, op);
      op.id := id;
      NumberedRows(before, D.InstanceRows(op.history.value), first, id);
    }

    /** Writes the numbered operation row and its instance rows. */
    method SaveOperation(op: D.Operation)
      requires Consistent(db) && op.id == db.lastOperationId + 1 && op.history.Some?
      requires forall i :: 0 <= i < |op.history.value| ==> op.history.value[i].id == db.lastInstanceId + 1 + i
      modifies this, log
      ensures db == WithOperation(old(db), op.Row(), D.InstanceRows(op.history.value))
      ensures Consistent(db)
      ensures log.events == old(log.events) + [Inserted(Operations)]
    {
      log.events := log.events + [Inserted(Operations)];
      var rows := D.InstanceRows(op.history.value);
      WithOperationConsistent(db, op.Row(), rows);
      db := WithOperation(db, op.Row(), rows);
    }

    /** Gives the instances consecutive ids from `first` and sets their operation id. */
    method NumberInstances(h: seq<D.OperationInstance>, first: int, operationId: int, ghost op: D.Operation)
      requires forall i, j :: 0 <= i < j < |h| ==> h[i] != h[j]
      modifies h
      ensures forall i :: 0 <= i < |h| ==>
        h[i].Row() == old(h[i].Row()).(id := first + i, operationId := operationId)
      ensures unchanged(op)
    {
      var i := 0;
      while i < |h|
        invariant 0 <= i <= |h|
        invariant forall j :: 0 <= j < i ==>
          h[j].Row() == old(h[j].Row()).(id := first + j, operationId := operationId)
        invariant forall j :: i <= j < |h| ==> h[j].Row() == old(h[j].Row())
        invariant unchanged(op)
      {
        h[i].id := first + i;
        h[i].operationId := operationId;
        i := i + 1;
      }
    }

    /**
     * Saves an operation loaded with its pending instance: the operation row
     * is overwritten, the pending instance is inserted when it is new and
     * overwritten otherwise, and `tracked`, an instance loaded by the same
     * context and changed since, is written back too.
     */
    method UpdateOperation(op: D.Operation, tracked: D.OperationInstance?)
      requires Consistent(db)
      requires op.id in db.operations && op.history.None?
      requires op.next != null && op.next.id != 0 ==> 0 < op.next.id <= db.lastInstanceId
      requires tracked != null ==> 0 < tracked.id <= db.lastInstanceId && tracked != op.next
      modifies this, log, op.next
      ensures op.next != null ==>
        op.next.Row() == old(op.next.Row()).(id := if old(op.next.id) == 0 then old(db.lastInstanceId) + 1 else old(op.next.id))
      ensures var db1 := if op.next == null then old(db) else PutInstance(old(db), op.next.Row(), old(op.next.id) == 0);
              var db2 := if tracked == null then db1 else PutInstance(db1, tracked.Row(), false);
              db == db2.(operations := old(db.operations)[op.id := op.Row()])
      ensures Consistent(db)
      ensures log.events == old(log.events) + [Updated(Operations)]
    {
      log.events := log.events + [Updated(Operations)];
      var db0 := db;
      var isNew := op.next != null && op.next.id == 0;
      if isNew {
        op.next.id := db.lastInstanceId + 1;
      }
      var db1 := db0;
      if op.next != null {
        PutInstanceConsistent(db0, op.next.Row(), isNew);
        db1 := PutInstance(db0, op.next.Row(), isNew);
      }
      var db2 := db1;
      if tracked != null {
        PutInstanceConsistent(db1, tracked.Row(), false);
        db2 := PutInstance(db1, tracked.Row(), false);
      }
      assert op.Row().id == op.id && db2.operations == db0.operations;
      ReplaceOperationConsistent(db2, op.Row());
      db := db2.(operations := db0.operations[op.id := op.Row()]);
    }

    /** Deletes an operation; the database cascades to its instances and reminders. */
    method DeleteOperation(op: D.Operation)
      requires Consistent(db)
      modifies this, log
      ensures db == old(db).(operations := old(db.operations) - {op.id},
                             instances := Filter(old(db.instances), InstanceNotOf(op.id)),
                             reminders := Filter(old(db.reminders), ReminderNotOf(op.id)))
      ensures Consistent(db)
      ensures log.events == old(log.events) + [Deleted(Operations)]
    {
      FilterUnique(db.instances, InstanceId, InstanceNotOf(op.id));
      FilterUnique(db.reminders, ReminderId, ReminderNotOf(op.id));
      db := db.(operations := db.operations - {op.id},
                instances := Filter(db.instances, InstanceNotOf(op.id)),
                reminders := Filter(db.reminders, ReminderNotOf(op.id)));
      log.events := log.events + [Deleted(Operations)];
    }

    /** `GetEntityByFilterAsync(r => r.Id == id)` on the reminders. */
    method FindReminder(id: int) returns (r: D.Reminder?)
      ensures r == null <==> Find(db.reminders, ReminderId, id).None?
      ensures r != null ==> fresh(r) && r.Row() == Find(db.reminders, ReminderId, id).value && r.operation == null
    {
      var row := Find(db.reminders, ReminderId, id);
      if row.None? {
        return null;
      }
      r := new D.Reminder.Load(row.value, null);
    }

    /**
     * `ReminderRepository.GetWithDetailsForProcessJobAsync(r => r.Id == id)`:
     * the reminder with its operation (itself without navigations).
     */
    method FindReminderWithOperation(id: int) returns (r: D.Reminder?)
      ensures r == null <==> Find(db.reminders, ReminderId, id).None?
      ensures r != null ==> fresh(r) && r.Row() == Find(db.reminders, ReminderId, id).value
      ensures r != null ==> (r.operation == null <==> r.operationId !in db.operations)
      ensures r != null && r.operation != null ==>
        fresh(r.operation) && r.operation.Row() == db.operations[r.operationId].(nextInstanceId := None)
    {
      var row := Find(db.reminders, ReminderId, id);
      if row.None? {
        return null;
      }
      var op := FindOperation(row.value.operationId);
      r := new D.Reminder.Load(row.value, op);
    }

    /** Inserts a new reminder, which receives the next identity value. */
    method InsertReminder(r: D.Reminder)
      requires Consistent(db) && r.id == 0
      modifies this, log, r
      ensures r.Row() == old(r.Row()).(id := old(db.lastReminderId) + 1) && r.operation == old(r.operation)
      ensures db == old(db).(reminders := old(db.reminders) + [r.Row()], lastReminderId := r.id)
      ensures Consistent(db)
      ensures log.events == old(log.events) + [Inserted(Reminders)]
    {
      r.id := db.lastReminderId + 1;
      AppendUnique(db.reminders, ReminderId, r.Row());
      db := db.(reminders := db.reminders + [r.Row()], lastReminderId := r.id);
      log.events := log.events + [Inserted(Reminders)];
    }

    /** Overwrites the row of a reminder with its current fields. */
    method UpdateReminder(r: D.Reminder)
      requires Consistent(db) && 0 < r.id <= db.lastReminderId
      modifies this, log
      ensures db == old(db).(reminders := Replace(old(db.reminders), ReminderId, r.Row()))
      ensures Consistent(db)
      ensures log.events == old(log.events) + [Updated(Reminders)]
    {
      ReplaceUnique(db.reminders, ReminderId, r.Row());
      var rows := Replace(db.reminders, ReminderId, r.Row());
      assert forall x :: x in rows ==> x == r.Row() || x in db.reminders;
      db := db.(reminders := rows);
      log.events := log.events + [Updated(Reminders)];
    }

    method DeleteReminder(r: D.Reminder)
      requires Consistent(db)
      modifies this, log
      ensures db == old(db).(reminders := Filter(old(db.reminders), ReminderIdIsNot(r.id)))
      ensures Consistent(db)
      ensures log.events == old(log.events) + [Deleted(Reminders)]
    {
      FilterUnique(db.reminders, ReminderId, ReminderIdIsNot(r.id));
      db := db.(reminders := Filter(db.reminders, ReminderIdIsNot(r.id)));
      log.events := log.events + [Deleted(Reminders)];
    }
  }

  /** Rows as an insert numbers them: consecutive ids from `first`, all owned by `operationId`. */
  function Numbered(rows: seq<D.InstanceRow>, first: int, operationId: int): (r: seq<D.InstanceRow>)
    ensures |r| == |rows|
    ensures forall i :: 0 <= i < |rows| ==> r[i] == rows[i].(id := first + i, operationId := operationId)
  {
    if rows == [] then [] else [rows[0].(id := first, operationId := operationId)] + Numbered(rows[1..], first + 1, operationId)
  }

  /** Rows renumbered one by one are the `Numbered` rows. */
  lemma NumberedRows(before: seq<D.InstanceRow>, after: seq<D.InstanceRow>, first: int, operationId: int)
    requires |after| == |before|
    requires forall i :: 0 <= i < |after| ==> after[i] == before[i].(id := first + i, operationId := operationId)
    ensures after == Numbered(before, first, operationId)
  {
  }

  /** Overwriting an existing operation row with one of the same id keeps the tables consistent. */
  lemma ReplaceOperationConsistent(db: Db, row: D.OperationRow)
    requires Consistent(db) && row.id in db.operations
    ensures Consistent(db.(operations := db.operations[row.id := row]))
  {
  }

  /** The row of the pending instance an operation row refers to, if it exists. */
  function PendingRow(db: Db, operationId: int): (r: Option<D.InstanceRow>)
    requires operationId in db.operations
    ensures r.Some? ==> r.value in db.instances && db.operations[operationId].nextInstanceId == Some(r.value.id)
  {
    var next := db.operations[operationId].nextInstanceId;
    if next.None? then None else Find(db.instances, InstanceId, next.value)
  }

  /** The tables after inserting an operation row and its instance rows. */
  function WithOperation(db: Db, row: D.OperationRow, rows: seq<D.InstanceRow>): (r: Db)
    requires 0 < row.id
    ensures r.users == db.users && r.reminders == db.reminders
    ensures row.id in r.operations && r.operations[row.id] == row
  {
    db.(operations := db.operations[row.id := row],
        instances := db.instances + rows,
        lastOperationId := row.id,
        lastInstanceId := db.lastInstanceId + |rows|)
  }

  /** Inserting rows numbered from the identity counters keeps the tables consistent. */
  lemma WithOperationConsistent(db: Db, row: D.OperationRow, rows: seq<D.InstanceRow>)
    requires Consistent(db) && row.id == db.lastOperationId + 1
    requires forall j :: 0 <= j < |rows| ==> rows[j].id == db.lastInstanceId + 1 + j
    ensures Consistent(WithOperation(db, row, rows))
  {
    InsertedRowsUnique(db, rows);
  }

  lemma InsertedRowsUnique(db: Db, rows: seq<D.InstanceRow>)
    requires Consistent(db)
    requires forall j :: 0 <= j < |rows| ==> rows[j].id == db.lastInstanceId + 1 + j
    ensures UniqueKeys(db.instances + rows, InstanceId)
    ensures forall r :: r in db.instances + rows ==> 0 < r.id <= db.lastInstanceId + |rows|
  {
    var s := db.instances + rows;
    forall i, j | 0 <= i < j < |s|
      ensures InstanceId(s[i]) != InstanceId(s[j])
    {
      if j >= |db.instances| {
        if i < |db.instances| {
          assert s[i] in db.instances;
        }
      }
    }
  }
}
