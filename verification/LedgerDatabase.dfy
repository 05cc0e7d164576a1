/** The ledger tables as mutable state: the trigger functions, one statement, one transaction. */
module LedgerDatabase {
  import opened Wrappers
  import opened Sums
  import opened Ledger

  lemma TakeLine<K>(rest: map<K, Line>, l: K, f: Line -> int)
    requires l in rest
    ensures Sum(rest, f) == Sum(rest - {l}, f) + f(rest[l])
    ensures |rest| == |rest - {l}| + 1
  {
    SumAdd(rest - {l}, f, l, rest[l]);
    assert rest == (rest - {l})[l := rest[l]];
  }

  /** `SELECT sum(debit), sum(credit), count(*)` over the chosen lines. */
  method SumSides<K>(chosen: map<K, Line>) returns (debit: int, credit: int, count: nat)
    ensures debit == Sum(chosen, DebitOf)
    ensures credit == Sum(chosen, CreditOf)
    ensures count == |chosen|
  {
    var rest := chosen;
    debit, credit, count := 0, 0, 0;
    while rest.Keys != {}
      invariant debit + Sum(rest, DebitOf) == Sum(chosen, DebitOf)
      invariant credit + Sum(rest, CreditOf) == Sum(chosen, CreditOf)
      invariant count + |rest| == |chosen|
      decreases |rest|
    {
      var l :| l in rest.Keys;
      TakeLine(rest, l, DebitOf);
      TakeLine(rest, l, CreditOf);
      debit, credit, count := debit + rest[l].debit, credit + rest[l].credit, count + 1;
      rest := rest - {l};
    }
    SumEmpty(rest, DebitOf);
    SumEmpty(rest, CreditOf);
  }

  class Database {
    var entries: map<Uuid, Entry>
    var lines: map<Uuid, Line>
    var accounts: map<Uuid, Account>
    var items: map<Uuid, OpenItem>
    var settlements: map<Uuid, Settlement>
    var pending: seq<Event>

    function Current(): Db
      reads this
    {
      Db(entries, lines, accounts, items, settlements)
    }

    function State(): Session
      reads this
    {
      Session(Current(), pending)
    }

    constructor ()
      ensures State() == Session(EMPTY_DB, [])
    {
      entries, lines, accounts, items, settlements := map[], map[], map[], map[], map[];
      pending := [];
    }

    /** Trigger on journal_entry; `after` is absent on DELETE. */
    method EntryGuard(before: Entry, after: Option<Entry>) returns (ok: bool)
      ensures ok <==> if after.None? then before.status != Posted else EntryUpdateAllowed(before, after.value)
    {
      if after.None? {
        return before.status != Posted;
      }
      if before.status == Posted {
        if !SameUpToMarks(before, after.value)
           || (before.reversedBy.Some? && after.value.reversedBy != before.reversedBy) {
          return false;
        }
      }
      return true;
    }

    /** Trigger on journal_line; `after` is absent on DELETE, `before` on INSERT. */
    method LineGuard(after: Option<Line>, before: Option<Line>) returns (ok: bool)
      requires after.Some? || before.Some?
      ensures ok <==> LineGuardAllows(Current(), after, before)
    {
      var entry := Lookup(entries, if after.Some? then after.value.entry else before.value.entry);
      if entry.Some? && entry.value.status == Posted {
        return false;
      }
      if after.None? {
        return true;
      }
      var account := Lookup(accounts, after.value.account);
      var accountLedger := if account.Some? then Some(account.value.ledger) else None;
      var entryLedger := if entry.Some? then Some(entry.value.ledger) else None;
      return accountLedger == entryLedger;
    }

    /** Deferred trigger: sums both sides and counts the lines of the entry as they are at commit. */
    method EntryBalanced(event: Event) returns (ok: bool)
      ensures ok <==> PassesDeferredCheck(Current(), event)
    {
      if event.row.status != Posted {
        return true;
      }
      var own := map l | l in lines && lines[l].entry == event.id :: lines[l];
      assert own == LinesOf(lines, event.id);
      var debit, credit, count := SumSides(own);
      return count >= 2 && debit == credit;
    }

    /** Trigger on open_item; `after` is absent on DELETE. */
    method ItemGuard(before: OpenItem, after: Option<OpenItem>) returns (ok: bool)
      ensures ok <==> after.Some? && ItemUpdateAllowed(before, after.value)
    {
      if after.None? || after.value.amount != before.amount || after.value.account != before.account
         || after.value.entry != before.entry || after.value.ledger != before.ledger {
        return false;
      }
      return true;
    }

    method WriteEntry(op: Op) returns (ok: bool)
      requires op.InsertEntry? || op.UpdateEntry? || op.DeleteEntry?
      modifies this
      ensures ok <==> Accepts(old(Current()), op)
      ensures Some(State()) == if ok then Step(old(State()), op) else Some(old(State()))
    {
      match op
      case InsertEntry(id, e) =>
        ok := id !in entries && EntryStorable(Current(), id, e);
        if ok {
          entries, pending := entries[id := e], pending + [Event(id, e)];
        }
      case UpdateEntry(id, e) =>
        ok := true;
        if id in entries {
          ok := EntryGuard(entries[id], Some(e));
          ok := ok && EntryStorable(Current(), id, e);
          if ok {
            entries, pending := entries[id := e], pending + [Event(id, e)];
          }
        }
      case DeleteEntry(id) =>
        ok := true;
        if id in entries {
          ok := EntryGuard(entries[id], None);
          ok := ok && !EntryReferenced(Current(), id);
          if ok {
            entries := entries - {id};
            lines := map l | l in lines && lines[l].entry != id :: lines[l];
          }
        }
    }

    method WriteLine(op: Op) returns (ok: bool)
      requires op.InsertLine? || op.UpdateLine? || op.DeleteLine?
      modifies this
      ensures ok <==> Accepts(old(Current()), op)
      ensures Some(State()) == if ok then Step(old(State()), op) else Some(old(State()))
    {
      match op
      case InsertLine(id, l) =>
        ok := LineGuard(Some(l), None);
        ok := ok && id !in lines && LineStorable(Current(), l);
        if ok {
          lines := lines[id := l];
        }
      case UpdateLine(id, l) =>
        ok := true;
        if id in lines {
          ok := LineGuard(Some(l), Some(lines[id]));
          ok := ok && LineStorable(Current(), l);
          if ok {
            lines := lines[id := l];
          }
        }
      case DeleteLine(id) =>
        ok := true;
        if id in lines {
          ok := LineGuard(None, Some(lines[id]));
          if ok {
            lines := lines - {id};
          }
        }
    }

    method WriteAccount(op: Op) returns (ok: bool)
      requires op.InsertAccount? || op.UpdateAccount? || op.DeleteAccount?
      modifies this
      ensures ok <==> Accepts(old(Current()), op)
      ensures Some(State()) == if ok then Step(old(State()), op) else Some(old(State()))
    {
      ok := Accepts(Current(), op);
      if ok {
        match op
        case InsertAccount(id, a) => accounts := accounts[id := a];
        case UpdateAccount(id, a) =>
          if id in accounts {
            accounts := accounts[id := a];
          }
        case DeleteAccount(id) => accounts := accounts - {id};
      }
    }

    method WriteClaim(op: Op) returns (ok: bool)
      requires op.InsertItem? || op.UpdateItem? || op.DeleteItem?
               || op.InsertSettlement? || op.UpdateSettlement? || op.DeleteSettlement?
      modifies this
      ensures ok <==> Accepts(old(Current()), op)
      ensures Some(State()) == if ok then Step(old(State()), op) else Some(old(State()))
    {
      match op
      case InsertItem(id, i) =>
        ok := id !in items && ItemStorable(Current(), id, i);
        if ok {
          items := items[id := i];
        }
      case UpdateItem(id, i) =>
        ok := true;
        if id in items {
          ok := ItemGuard(items[id], Some(i));
          ok := ok && ItemStorable(Current(), id, i);
          if ok {
            items := items[id := i];
          }
        }
      case DeleteItem(id) =>
        ok := true;
        if id in items {
          ok := ItemGuard(items[id], None);
        }
      case InsertSettlement(id, s) =>
        ok := id !in settlements && SettlementStorable(Current(), s);
        if ok {
          settlements := settlements[id := s];
        }
      case UpdateSettlement(id, _) => ok := id !in settlements;
      case DeleteSettlement(id) => ok := id !in settlements;
    }

    method Execute(op: Op) returns (ok: bool)
      modifies this
      ensures ok <==> Accepts(old(Current()), op)
      ensures Some(State()) == if ok then Step(old(State()), op) else Some(old(State()))
    {
      match op
      case InsertEntry(_, _) | UpdateEntry(_, _) | DeleteEntry(_) => ok := WriteEntry(op);
      case InsertLine(_, _) | UpdateLine(_, _) | DeleteLine(_) => ok := WriteLine(op);
      case InsertAccount(_, _) | UpdateAccount(_, _) | DeleteAccount(_) => ok := WriteAccount(op);
      case InsertItem(_, _) | UpdateItem(_, _) | DeleteItem(_) => ok := WriteClaim(op);
      case InsertSettlement(_, _) | UpdateSettlement(_, _) | DeleteSettlement(_) => ok := WriteClaim(op);
    }

    method Restore(db: Db)
      modifies this
      ensures State() == Session(db, [])
    {
      entries, lines, accounts, items, settlements := db.entries, db.lines, db.accounts, db.items, db.settlements;
      pending := [];
    }

    /** The first refused statement or the first failed check at commit undoes everything. */
    method RunTransaction(ops: seq<Op>) returns (committed: bool)
      requires pending == []
      modifies this
      ensures committed <==> Commits(old(Current()), ops)
      ensures State() == Session(Transact(old(Current()), ops), [])
    {
      hide Accepts, Effect, Queue, IsBalanced;
      var saved := Current();
      var i := 0;
      while i < |ops|
        invariant 0 <= i <= |ops|
        invariant RunOps(Session(saved, []), ops) == RunOps(State(), ops[i..])
      {
        var ok := Execute(ops[i]);
        if !ok {
          Restore(saved);
          return false;
        }
        i := i + 1;
      }
      ghost var end := State();
      assert ops[i..] == [];
      assert RunOps(Session(saved, []), ops) == Some(end);
      var k := 0;
      while k < |pending|
        invariant 0 <= k <= |pending| && State() == end
        invariant forall e :: e in pending[..k] ==> PassesDeferredCheck(Current(), e)
      {
        var ok := EntryBalanced(pending[k]);
        if !ok {
          assert pending[k] in pending;
          Restore(saved);
          return false;
        }
        k := k + 1;
      }
      assert pending[..k] == pending;
      pending := [];
      return true;
    }
  }
}
