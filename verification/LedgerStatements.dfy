/** For which rows each statement is accepted, column by column, and what the tables hold afterwards. */
module LedgerStatements {
  import opened Wrappers
  import opened Ledger
  import opened LedgerSafety

  // ----- entries

  /** Every column but the reversal reference and the marks of the last change. */
  predicate SameColumns(a: Entry, b: Entry) {
    && a.tenant == b.tenant && a.ledger == b.ledger && a.status == b.status
    && a.fiscalYear == b.fiscalYear && a.number == b.number && a.isReversal == b.isReversal
    && a.reverses == b.reverses && a.idempotencyKey == b.idempotencyKey && a.content == b.content
  }

  predicate Names(db: Db, id: Uuid, reference: Option<Uuid>) {
    reference.Some? ==> reference.value == id || reference.value in db.entries
  }

  /** An update of a posted entry is accepted if and only if it leaves all columns but the marks as
      they are and sets the reversal reference at most once, to an entry that exists. */
  lemma PostedUpdateAcceptedIff(db: Db, id: Uuid, e: Entry)
    requires WellFormed(db) && id in db.entries && db.entries[id].status == Posted
    ensures Accepts(db, UpdateEntry(id, e)) <==>
      && SameColumns(db.entries[id], e) && Names(db, id, e.reversedBy)
      && (db.entries[id].reversedBy == None || e.reversedBy == db.entries[id].reversedBy)
  {
    var before := db.entries[id];
    if SameColumns(before, e) {
      assert EntryRowChecks(before);
      forall other | other in db.entries && other != id
        ensures !Clash(db.entries[other], e)
      {
        assert !Clash(db.entries[other], before);
      }
    }
  }

  /** The first reversal of a posted entry can always be recorded, and nothing else changes. */
  lemma MarkingAsReversedCommits(db: Db, id: Uuid, reversal: Uuid, updated: string)
    requires Committed(db) && id in db.entries && db.entries[id].status == Posted
    requires db.entries[id].reversedBy == None && reversal in db.entries
    ensures
      var marked := db.entries[id].(reversedBy := Some(reversal), updated := updated);
      && Commits(db, [UpdateEntry(id, marked)])
      && Transact(db, [UpdateEntry(id, marked)]) == db.(entries := db.entries[id := marked])
  {
    var marked := db.entries[id].(reversedBy := Some(reversal), updated := updated);
    var op := UpdateEntry(id, marked);
    PostedUpdateAcceptedIff(db, id, marked);
    assert IsBalanced(db.lines, id);
    hide IsBalanced, Accepts, WellFormed;
    var next := Step(Session(db, []), op).value;
    assert RunOps(next, []) == Some(next) && [op][1..] == [];
    assert RunOps(Session(db, []), [op]) == Some(next);
    assert next.pending == [Event(id, marked)];
  }

  /** Two entries may not share a number within a fiscal year, an idempotency key or a reversed entry. */
  predicate IsUnique(db: Db, id: Uuid, e: Entry) {
    forall o :: o in db.entries && o != id ==>
      var other := db.entries[o];
      && !(other.tenant == e.tenant && other.ledger == e.ledger && other.fiscalYear == e.fiscalYear
           && other.number == e.number && e.fiscalYear != None && e.number != None)
      && !(other.tenant == e.tenant && other.ledger == e.ledger
           && other.idempotencyKey == e.idempotencyKey && e.idempotencyKey != None)
      && !(other.reverses == e.reverses && e.reverses != None)
  }

  /** A row is numbered exactly when posted, a reversal names what it reverses, and references exist. */
  predicate IsSound(db: Db, id: Uuid, e: Entry) {
    && (e.status == Posted ==> e.number != None) && (e.status == Draft ==> e.number == None)
    && (e.isReversal ==> e.reverses != None)
    && Names(db, id, e.reverses) && Names(db, id, e.reversedBy)
  }

  lemma EntryInsertAcceptedIff(db: Db, id: Uuid, e: Entry)
    ensures Accepts(db, InsertEntry(id, e)) <==> id !in db.entries && IsSound(db, id, e) && IsUnique(db, id, e)
  {
    StorableIff(db, id, e);
  }

  lemma DraftUpdateAcceptedIff(db: Db, id: Uuid, e: Entry)
    requires id in db.entries && db.entries[id].status == Draft
    ensures Accepts(db, UpdateEntry(id, e)) <==> IsSound(db, id, e) && IsUnique(db, id, e)
  {
    StorableIff(db, id, e);
  }

  lemma StorableIff(db: Db, id: Uuid, e: Entry)
    ensures EntryStorable(db, id, e) <==> IsSound(db, id, e) && IsUnique(db, id, e)
  {
    if EntryStorable(db, id, e) {
      forall o | o in db.entries && o != id
        ensures !Clash(db.entries[o], e)
      {
      }
    }
    if IsSound(db, id, e) && IsUnique(db, id, e) {
      forall o | o in db.entries && o != id
        ensures !Clash(db.entries[o], e)
      {
      }
    }
  }

  /** An entry is deleted if and only if it is a draft that no other entry, item or settlement names. */
  lemma EntryDeleteAcceptedIff(db: Db, id: Uuid)
    requires id in db.entries
    ensures Accepts(db, DeleteEntry(id)) <==>
      && db.entries[id].status == Draft
      && (forall o :: o in db.entries && o != id ==>
            db.entries[o].reverses != Some(id) && db.entries[o].reversedBy != Some(id))
      && (forall i :: i in db.items ==> db.items[i].entry != id)
      && (forall s :: s in db.settlements ==> db.settlements[s].entry != id)
  {
  }

  // ----- lines

  /** One side is positive and fits fourteen digits with two of them decimal, the other is zero. */
  predicate IsOneSided(l: Line) {
    || (1 <= l.debit <= 99_999_999_999_999 && l.credit == 0)
    || (1 <= l.credit <= 99_999_999_999_999 && l.debit == 0)
  }

  /** The line names a draft and an account of the draft's ledger. */
  predicate BooksOnDraft(db: Db, l: Line) {
    && l.entry in db.entries && db.entries[l.entry].status == Draft
    && l.account in db.accounts && db.accounts[l.account].ledger == db.entries[l.entry].ledger
  }

  lemma LineInsertAcceptedIff(db: Db, id: Uuid, l: Line)
    ensures Accepts(db, InsertLine(id, l)) <==> id !in db.lines && IsOneSided(l) && BooksOnDraft(db, l)
  {
  }

  /** Only the new row is looked at, so a line may leave a posted entry. */
  lemma LineUpdateAcceptedIff(db: Db, id: Uuid, l: Line)
    requires id in db.lines
    ensures Accepts(db, UpdateLine(id, l)) <==> IsOneSided(l) && BooksOnDraft(db, l)
  {
  }

  lemma LineDeleteAcceptedIff(db: Db, id: Uuid)
    requires LinesWellFormed(db) && id in db.lines
    ensures Accepts(db, DeleteLine(id)) <==> db.entries[db.lines[id].entry].status == Draft
  {
    assert LineStorable(db, db.lines[id]);
  }

  // ----- accounts, items, settlements

  lemma AccountAcceptedIff(db: Db, id: Uuid, a: Account)
    ensures Accepts(db, InsertAccount(id, a)) <==> id !in db.accounts
    ensures Accepts(db, UpdateAccount(id, a))
    ensures Accepts(db, DeleteAccount(id)) <==>
      && (forall l :: l in db.lines ==> db.lines[l].account != id)
      && (forall i :: i in db.items ==> db.items[i].account != id)
  {
  }

  /** One item for each entry and account, on rows that exist, with a positive amount. */
  predicate IsItem(db: Db, id: Uuid, i: OpenItem) {
    && 1 <= i.amount <= 99_999_999_999_999 && i.account in db.accounts && i.entry in db.entries
    && forall o :: o in db.items && o != id ==> !(db.items[o].entry == i.entry && db.items[o].account == i.account)
  }

  lemma ItemAcceptedIff(db: Db, id: Uuid, i: OpenItem)
    ensures Accepts(db, InsertItem(id, i)) <==> id !in db.items && IsItem(db, id, i)
    ensures id in db.items ==> !Accepts(db, DeleteItem(id))
  {
  }

  /** A stored item may change its remaining columns and nothing else. */
  lemma ItemUpdateAcceptedIff(db: Db, id: Uuid, i: OpenItem)
    requires WellFormed(db) && id in db.items
    ensures Accepts(db, UpdateItem(id, i)) <==>
      && i.ledger == db.items[id].ledger && i.account == db.items[id].account
      && i.entry == db.items[id].entry && i.amount == db.items[id].amount
  {
    assert ItemStorable(db, id, db.items[id]);
  }

  lemma SettlementAcceptedIff(db: Db, id: Uuid, s: Settlement)
    ensures Accepts(db, InsertSettlement(id, s)) <==>
      && id !in db.settlements && s.item in db.items && s.entry in db.entries
      && s.amount != 0 && -99_999_999_999_999 <= s.amount <= 99_999_999_999_999
    ensures id in db.settlements ==> !Accepts(db, UpdateSettlement(id, s)) && !Accepts(db, DeleteSettlement(id))
  {
  }

  // ----- what the tables hold afterwards

  /** All tables but the named ones are as they were. */
  predicate KeepsEntries(before: Db, after: Db) { after.entries == before.entries }
  predicate KeepsLines(before: Db, after: Db) { after.lines == before.lines }
  predicate KeepsAccounts(before: Db, after: Db) { after.accounts == before.accounts }
  predicate KeepsClaims(before: Db, after: Db) {
    after.items == before.items && after.settlements == before.settlements
  }

  /** The row is stored under the id, and every other row of the table is as it was. */
  ghost predicate Writes<V>(before: map<Uuid, V>, after: map<Uuid, V>, id: Uuid, row: V) {
    && id in after && after[id] == row
    && forall o :: o != id ==> Lookup(after, o) == Lookup(before, o)
  }

  ghost predicate Removes<V>(before: map<Uuid, V>, after: map<Uuid, V>, id: Uuid) {
    id !in after && forall o :: o != id ==> Lookup(after, o) == Lookup(before, o)
  }

  lemma EntryWritten(db: Db, op: Op)
    requires (op.InsertEntry? && op.id !in db.entries) || (op.UpdateEntry? && op.id in db.entries)
    requires Accepts(db, op)
    ensures
      var next := Effect(db, op);
      Writes(db.entries, next.entries, op.id, op.entry)
      && KeepsLines(db, next) && KeepsAccounts(db, next) && KeepsClaims(db, next)
  {
  }

  /** A deleted entry takes exactly its own lines along. */
  lemma EntryRemoved(db: Db, id: Uuid)
    requires id in db.entries && Accepts(db, DeleteEntry(id))
    ensures
      var next := Effect(db, DeleteEntry(id));
      && Removes(db.entries, next.entries, id) && KeepsAccounts(db, next) && KeepsClaims(db, next)
      && forall l :: Lookup(next.lines, l) ==
           if l in db.lines && db.lines[l].entry == id then None else Lookup(db.lines, l)
  {
  }

  lemma LineWritten(db: Db, op: Op)
    requires op.InsertLine? || (op.UpdateLine? && op.id in db.lines)
    requires Accepts(db, op)
    ensures
      var next := Effect(db, op);
      Writes(db.lines, next.lines, op.id, op.line)
      && KeepsEntries(db, next) && KeepsAccounts(db, next) && KeepsClaims(db, next)
  {
  }

  lemma LineRemoved(db: Db, id: Uuid)
    requires id in db.lines && Accepts(db, DeleteLine(id))
    ensures
      var next := Effect(db, DeleteLine(id));
      Removes(db.lines, next.lines, id) && KeepsEntries(db, next) && KeepsAccounts(db, next) && KeepsClaims(db, next)
  {
  }

  lemma AccountWritten(db: Db, op: Op)
    requires op.InsertAccount? || (op.UpdateAccount? && op.id in db.accounts)
    requires Accepts(db, op)
    ensures
      var next := Effect(db, op);
      Writes(db.accounts, next.accounts, op.id, op.account)
      && KeepsEntries(db, next) && KeepsLines(db, next) && KeepsClaims(db, next)
  {
  }

  lemma AccountRemoved(db: Db, id: Uuid)
    requires id in db.accounts && Accepts(db, DeleteAccount(id))
    ensures
      var next := Effect(db, DeleteAccount(id));
      Removes(db.accounts, next.accounts, id) && KeepsEntries(db, next) && KeepsLines(db, next) && KeepsClaims(db, next)
  {
  }

  lemma ItemWritten(db: Db, op: Op)
    requires op.InsertItem? || (op.UpdateItem? && op.id in db.items)
    requires Accepts(db, op)
    ensures
      var next := Effect(db, op);
      && Writes(db.items, next.items, op.id, op.item) && next.settlements == db.settlements
      && KeepsEntries(db, next) && KeepsLines(db, next) && KeepsAccounts(db, next)
  {
  }

  lemma SettlementWritten(db: Db, id: Uuid, s: Settlement)
    requires Accepts(db, InsertSettlement(id, s))
    ensures
      var next := Effect(db, InsertSettlement(id, s));
      && Writes(db.settlements, next.settlements, id, s) && next.items == db.items
      && KeepsEntries(db, next) && KeepsLines(db, next) && KeepsAccounts(db, next)
  {
  }

  /** An update or a delete that finds no row is accepted and changes nothing. */
  lemma NoRowNoChange(db: Db, op: Op)
    requires
      || ((op.UpdateEntry? || op.DeleteEntry?) && op.id !in db.entries)
      || ((op.UpdateLine? || op.DeleteLine?) && op.id !in db.lines)
      || (op.UpdateAccount? && op.id !in db.accounts)
      || ((op.UpdateItem? || op.DeleteItem?) && op.id !in db.items)
      || ((op.UpdateSettlement? || op.DeleteSettlement?) && op.id !in db.settlements)
    ensures Accepts(db, op) && Effect(db, op) == db && Queue(Session(db, []), op) == []
  {
  }

  /** A balance check is queued for the row as written, and for entries only. */
  lemma WhatIsQueued(s: Session, op: Op)
    requires Accepts(s.db, op)
    ensures
      Step(s, op).value.pending ==
        if op.InsertEntry? || (op.UpdateEntry? && op.id in s.db.entries)
        then s.pending + [Event(op.id, op.entry)] else s.pending
  {
  }
}
