/** The double-entry tables, the guards on their rows and transactions with deferred checks.

    A row operation that any guard or constraint refuses aborts the transaction. A row of
    `journal_entry` that is inserted or updated queues a balance check, and commit runs the
    queue. Amounts are whole cents. */
module Ledger {
  import opened Wrappers
  import opened Sums

  type Uuid = int

  datatype Status = Draft | Posted

  /** `content` stands for the columns no guard looks at, `updated` for updated_at and updated_by. */
  datatype Entry = Entry(
    tenant: Uuid,
    ledger: Uuid,
    status: Status,
    fiscalYear: Option<int>,
    number: Option<int>,
    isReversal: bool,
    reverses: Option<Uuid>,
    idempotencyKey: Option<string>,
    content: string,
    reversedBy: Option<Uuid>,
    updated: string
  )

  datatype Line = Line(entry: Uuid, account: Uuid, debit: int, credit: int, content: string)

  datatype Account = Account(ledger: Uuid, content: string)

  datatype OpenItem = OpenItem(ledger: Uuid, account: Uuid, entry: Uuid, amount: int, content: string)

  datatype Settlement = Settlement(item: Uuid, entry: Uuid, amount: int)

  datatype Db = Db(
    entries: map<Uuid, Entry>,
    lines: map<Uuid, Line>,
    accounts: map<Uuid, Account>,
    items: map<Uuid, OpenItem>,
    settlements: map<Uuid, Settlement>
  )

  const EMPTY_DB := Db(map[], map[], map[], map[], map[])

  datatype Op =
    | InsertEntry(id: Uuid, entry: Entry)
    | UpdateEntry(id: Uuid, entry: Entry)
    | DeleteEntry(id: Uuid)
    | InsertLine(id: Uuid, line: Line)
    | UpdateLine(id: Uuid, line: Line)
    | DeleteLine(id: Uuid)
    | InsertAccount(id: Uuid, account: Account)
    | UpdateAccount(id: Uuid, account: Account)
    | DeleteAccount(id: Uuid)
    | InsertItem(id: Uuid, item: OpenItem)
    | UpdateItem(id: Uuid, item: OpenItem)
    | DeleteItem(id: Uuid)
    | InsertSettlement(id: Uuid, settlement: Settlement)
    | UpdateSettlement(id: Uuid, settlement: Settlement)
    | DeleteSettlement(id: Uuid)

  function Lookup<V>(table: map<Uuid, V>, id: Uuid): Option<V> {
    if id in table then Some(table[id]) else None
  }

  function EntryOf(l: Line): Uuid { l.entry }
  function AccountOf(l: Line): Uuid { l.account }
  function DebitOf(l: Line): int { l.debit }
  function CreditOf(l: Line): int { l.credit }
  function NetOf(l: Line): int { l.debit - l.credit }
  function ItemOf(s: Settlement): Uuid { s.item }
  function AmountOf(s: Settlement): int { s.amount }

  ghost function LinesOf(lines: map<Uuid, Line>, e: Uuid): map<Uuid, Line> {
    Where(lines, EntryOf, e)
  }

  // ----- guards and constraints on one row

  predicate SameUpToMarks(a: Entry, b: Entry) {
    a == b.(reversedBy := a.reversedBy, updated := a.updated)
  }

  predicate EntryUpdateAllowed(before: Entry, after: Entry) {
    before.status == Posted ==>
      && SameUpToMarks(before, after)
      && (before.reversedBy.Some? ==> after.reversedBy == before.reversedBy)
  }

  /** numeric(14, 2), counted in cents */
  predicate FitsColumn(cents: int) {
    -100_000_000_000_000 < cents < 100_000_000_000_000
  }

  predicate EntryRowChecks(e: Entry) {
    && (e.status == Posted <==> e.number.Some?)
    && (e.isReversal ==> e.reverses.Some?)
  }

  predicate LineRowChecks(l: Line) {
    && FitsColumn(l.debit) && FitsColumn(l.credit)
    && ((l.debit > 0 && l.credit == 0) || (l.credit > 0 && l.debit == 0))
  }

  /** The unique constraint on the number and the two partial unique indexes; null never clashes. */
  predicate Clash(a: Entry, b: Entry) {
    || (a.tenant == b.tenant && a.ledger == b.ledger
        && a.fiscalYear.Some? && a.fiscalYear == b.fiscalYear
        && a.number.Some? && a.number == b.number)
    || (a.tenant == b.tenant && a.ledger == b.ledger
        && a.idempotencyKey.Some? && a.idempotencyKey == b.idempotencyKey)
    || (a.reverses.Some? && a.reverses == b.reverses)
  }

  predicate EntryStorable(db: Db, id: Uuid, e: Entry) {
    && EntryRowChecks(e)
    && (forall other :: other in db.entries && other != id ==> !Clash(db.entries[other], e))
    && (e.reverses.Some? ==> e.reverses.value in db.entries || e.reverses.value == id)
    && (e.reversedBy.Some? ==> e.reversedBy.value in db.entries || e.reversedBy.value == id)
  }

  predicate EntryReferenced(db: Db, id: Uuid) {
    || (exists o :: o in db.entries && o != id
          && (db.entries[o].reverses == Some(id) || db.entries[o].reversedBy == Some(id)))
    || (exists i :: i in db.items && db.items[i].entry == id)
    || (exists s :: s in db.settlements && db.settlements[s].entry == id)
  }

  predicate LineStorable(db: Db, l: Line) {
    LineRowChecks(l) && l.entry in db.entries && l.account in db.accounts
  }

  /** The line guard: it sees the entry the new row names, or the old row's entry on delete. */
  predicate LineGuardAllows(db: Db, after: Option<Line>, before: Option<Line>)
    requires after.Some? || before.Some?
  {
    var parent := Lookup(db.entries, if after.Some? then after.value.entry else before.value.entry);
    && (parent.Some? ==> parent.value.status != Posted)
    && (after.Some? ==>
          var account := Lookup(db.accounts, after.value.account);
          (if account.Some? then Some(account.value.ledger) else None)
          == (if parent.Some? then Some(parent.value.ledger) else None))
  }

  predicate ItemStorable(db: Db, id: Uuid, i: OpenItem) {
    && i.amount > 0 && FitsColumn(i.amount)
    && i.account in db.accounts && i.entry in db.entries
    && (forall other :: other in db.items && other != id ==>
          db.items[other].entry != i.entry || db.items[other].account != i.account)
  }

  predicate ItemUpdateAllowed(before: OpenItem, after: OpenItem) {
    && after.amount == before.amount && after.account == before.account
    && after.entry == before.entry && after.ledger == before.ledger
  }

  predicate SettlementStorable(db: Db, s: Settlement) {
    s.amount != 0 && FitsColumn(s.amount) && s.item in db.items && s.entry in db.entries
  }

  // ----- one row operation

  predicate Accepts(db: Db, op: Op) {
    match op
    case InsertEntry(id, e) => id !in db.entries && EntryStorable(db, id, e)
    case UpdateEntry(id, e) =>
      id in db.entries ==> EntryUpdateAllowed(db.entries[id], e) && EntryStorable(db, id, e)
    case DeleteEntry(id) =>
      id in db.entries ==> db.entries[id].status != Posted && !EntryReferenced(db, id)
    case InsertLine(id, l) => id !in db.lines && LineGuardAllows(db, Some(l), None) && LineStorable(db, l)
    case UpdateLine(id, l) =>
      id in db.lines ==> LineGuardAllows(db, Some(l), Some(db.lines[id])) && LineStorable(db, l)
    case DeleteLine(id) => id in db.lines ==> LineGuardAllows(db, None, Some(db.lines[id]))
    case InsertAccount(id, _) => id !in db.accounts
    case UpdateAccount(_, _) => true
    case DeleteAccount(id) =>
      && (forall l :: l in db.lines ==> db.lines[l].account != id)
      && (forall i :: i in db.items ==> db.items[i].account != id)
    case InsertItem(id, i) => id !in db.items && ItemStorable(db, id, i)
    case UpdateItem(id, i) => id in db.items ==> ItemUpdateAllowed(db.items[id], i) && ItemStorable(db, id, i)
    case DeleteItem(id) => id !in db.items
    case InsertSettlement(id, s) => id !in db.settlements && SettlementStorable(db, s)
    case UpdateSettlement(id, _) => id !in db.settlements
    case DeleteSettlement(id) => id !in db.settlements
  }

  /** An update or delete that finds no row changes nothing; deleting an entry takes its lines along. */
  function Effect(db: Db, op: Op): Db {
    match op
    case InsertEntry(id, e) => db.(entries := db.entries[id := e])
    case UpdateEntry(id, e) => if id in db.entries then db.(entries := db.entries[id := e]) else db
    case DeleteEntry(id) =>
      if id in db.entries then
        db.(entries := db.entries - {id},
            lines := map l | l in db.lines && db.lines[l].entry != id :: db.lines[l])
      else db
    case InsertLine(id, l) => db.(lines := db.lines[id := l])
    case UpdateLine(id, l) => if id in db.lines then db.(lines := db.lines[id := l]) else db
    case DeleteLine(id) => if id in db.lines then db.(lines := db.lines - {id}) else db
    case InsertAccount(id, a) => db.(accounts := db.accounts[id := a])
    case UpdateAccount(id, a) => if id in db.accounts then db.(accounts := db.accounts[id := a]) else db
    case DeleteAccount(id) => db.(accounts := db.accounts - {id})
    case InsertItem(id, i) => db.(items := db.items[id := i])
    case UpdateItem(id, i) => if id in db.items then db.(items := db.items[id := i]) else db
    case InsertSettlement(id, s) => db.(settlements := db.settlements[id := s])
    case DeleteItem(_) | UpdateSettlement(_, _) | DeleteSettlement(_) => db
  }

  // ----- transactions

  /** A queued balance check carries the row as the statement wrote it. */
  datatype Event = Event(id: Uuid, row: Entry)

  datatype Session = Session(db: Db, pending: seq<Event>)

  function Queue(s: Session, op: Op): seq<Event> {
    match op
    case InsertEntry(id, e) => s.pending + [Event(id, e)]
    case UpdateEntry(id, e) => if id in s.db.entries then s.pending + [Event(id, e)] else s.pending
    case _ => s.pending
  }

  function Step(s: Session, op: Op): Option<Session> {
    if Accepts(s.db, op) then Some(Session(Effect(s.db, op), Queue(s, op))) else None
  }

  function RunOps(s: Session, ops: seq<Op>): Option<Session>
    decreases |ops|
  {
    if ops == [] then Some(s)
    else match Step(s, ops[0])
      case None => None
      case Some(next) => RunOps(next, ops[1..])
  }

  ghost predicate IsBalanced(lines: map<Uuid, Line>, e: Uuid) {
    var own := LinesOf(lines, e);
    |own| >= 2 && Sum(own, DebitOf) == Sum(own, CreditOf)
  }

  ghost predicate PassesDeferredCheck(db: Db, event: Event) {
    event.row.status == Posted ==> IsBalanced(db.lines, event.id)
  }

  ghost predicate Commits(db: Db, ops: seq<Op>) {
    var end := RunOps(Session(db, []), ops);
    end.Some? && forall event :: event in end.value.pending ==> PassesDeferredCheck(end.value.db, event)
  }

  /** Either every operation takes effect or none does. */
  ghost function Transact(db: Db, ops: seq<Op>): Db {
    if Commits(db, ops) then RunOps(Session(db, []), ops).value.db else db
  }

  ghost function History(db: Db, transactions: seq<seq<Op>>): Db
    decreases |transactions|
  {
    if transactions == [] then db else History(Transact(db, transactions[0]), transactions[1..])
  }
}
