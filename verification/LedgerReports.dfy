/** Statements over many entries: the trial balance of a ledger and the remainder of an open item. */
module LedgerReports {
  import opened Sums
  import opened Ledger
  import opened LedgerSafety

  // ----- lines stay in the ledger of their entry

  /** Every line books on an account of its entry's own ledger. */
  ghost predicate Coherent(db: Db) {
    forall l :: l in db.lines ==>
      && db.lines[l].entry in db.entries && db.lines[l].account in db.accounts
      && db.accounts[db.lines[l].account].ledger == db.entries[db.lines[l].entry].ledger
  }

  /** An entry or an account with lines is given another ledger. */
  predicate Relabels(db: Db, op: Op) {
    || (op.UpdateEntry? && op.id in db.entries && op.entry.ledger != db.entries[op.id].ledger
        && exists l :: l in db.lines && db.lines[l].entry == op.id)
    || (op.UpdateAccount? && op.id in db.accounts && op.account.ledger != db.accounts[op.id].ledger
        && exists l :: l in db.lines && db.lines[l].account == op.id)
  }

  /** No guard looks at ledger_id when an entry or an account is updated; that is the only way out. */
  lemma CoherentIff(db: Db, op: Op)
    requires Coherent(db) && Accepts(db, op)
    ensures Coherent(Effect(db, op)) <==> !Relabels(db, op)
  {
  }

  predicate Unsafe(db: Db, op: Op) {
    MovesPostedLine(db, op) || Relabels(db, op)
  }

  lemma {:induction false} RunKeepsCoherent(s: Session, ops: seq<Op>)
    requires Coherent(s.db) && RunOps(s, ops).Some? && Avoids(s, ops, Unsafe)
    ensures Coherent(RunOps(s, ops).value.db)
    ensures Avoids(s, ops, MovesPostedLine)
    decreases |ops|
  {
    if ops != [] {
      CoherentIff(s.db, ops[0]);
      RunKeepsCoherent(Step(s, ops[0]).value, ops[1..]);
    }
  }

  lemma {:induction false} HistoryKeepsCoherent(db: Db, transactions: seq<seq<Op>>)
    requires Coherent(db) && HistoryAvoids(db, transactions, Unsafe)
    ensures Coherent(History(db, transactions))
    ensures HistoryAvoids(db, transactions, MovesPostedLine)
    decreases |transactions|
  {
    if transactions != [] {
      if Commits(db, transactions[0]) {
        RunKeepsCoherent(Session(db, []), transactions[0]);
      }
      HistoryKeepsCoherent(Transact(db, transactions[0]), transactions[1..]);
    }
  }

  // ----- trial balance

  ghost function AccountsOf(db: Db, ledger: Uuid): set<Uuid> {
    set a | a in db.accounts && db.accounts[a].ledger == ledger
  }

  /** The lines of the chosen entries. */
  ghost function Booked(db: Db, entries: set<Uuid>): map<Uuid, Line> {
    map l | l in db.lines && db.lines[l].entry in entries :: db.lines[l]
  }

  ghost function Balance(lines: map<Uuid, Line>, account: Uuid): int {
    Sum(Where(lines, AccountOf, account), NetOf)
  }

  ghost function TrialBalance(db: Db, ledger: Uuid, entries: set<Uuid>): map<Uuid, int> {
    map a | a in AccountsOf(db, ledger) :: Balance(Booked(db, entries), a)
  }

  lemma {:induction false} NetIsDifference<K>(lines: map<K, Line>)
    ensures Sum(lines, NetOf) == Sum(lines, DebitOf) - Sum(lines, CreditOf)
    decreases |lines.Keys|
  {
    if k :| k in lines {
      var rest := lines - {k};
      assert rest.Keys == lines.Keys - {k};
      assert lines == rest[k := lines[k]];
      NetIsDifference(rest);
      SumAdd(rest, NetOf, k, lines[k]);
      SumAdd(rest, DebitOf, k, lines[k]);
      SumAdd(rest, CreditOf, k, lines[k]);
    } else {
      SumEmpty(lines, NetOf);
      SumEmpty(lines, DebitOf);
      SumEmpty(lines, CreditOf);
    }
  }

  ghost predicate PostedIn(db: Db, ledger: Uuid, entries: set<Uuid>) {
    forall e :: e in entries ==>
      e in db.entries && db.entries[e].status == Posted && db.entries[e].ledger == ledger
  }

  lemma BookedByEntry(db: Db, entries: set<Uuid>, e: Uuid)
    requires e in entries && IsBalanced(db.lines, e)
    ensures Sum(Where(Booked(db, entries), EntryOf, e), NetOf) == 0
  {
    assert Where(Booked(db, entries), EntryOf, e) == LinesOf(db.lines, e);
    NetIsDifference(LinesOf(db.lines, e));
  }

  lemma BookedNetIsZero(db: Db, ledger: Uuid, entries: set<Uuid>)
    requires Committed(db) && PostedIn(db, ledger, entries)
    ensures Sum(Booked(db, entries), NetOf) == 0
  {
    var lines := Booked(db, entries);
    var sums := GroupSums(lines, NetOf, EntryOf, entries);
    SumByGroup(lines, NetOf, EntryOf, entries);
    forall e | e in sums
      ensures sums[e] == 0
    {
      BookedByEntry(db, entries, e);
    }
    TotalZero(sums);
  }

  lemma TrialBalanceGroups(db: Db, ledger: Uuid, entries: set<Uuid>)
    ensures TrialBalance(db, ledger, entries)
         == GroupSums(Booked(db, entries), NetOf, AccountOf, AccountsOf(db, ledger))
  {
  }

  /** Taken over the ledger's own accounts, debit minus credit of any of its posted entries is zero. */
  lemma TrialBalanceIsZero(db: Db, ledger: Uuid, entries: set<Uuid>)
    requires Committed(db) && Coherent(db) && PostedIn(db, ledger, entries)
    ensures Total(TrialBalance(db, ledger, entries)) == 0
  {
    var lines := Booked(db, entries);
    BookedNetIsZero(db, ledger, entries);
    forall l | l in lines
      ensures lines[l].account in AccountsOf(db, ledger)
    {
    }
    SumByGroup(lines, NetOf, AccountOf, AccountsOf(db, ledger));
    TrialBalanceGroups(db, ledger, entries);
  }

  lemma EveryTrialBalanceIsZero(transactions: seq<seq<Op>>, ledger: Uuid, entries: set<Uuid>)
    requires HistoryAvoids(EMPTY_DB, transactions, Unsafe)
    requires PostedIn(History(EMPTY_DB, transactions), ledger, entries)
    ensures Total(TrialBalance(History(EMPTY_DB, transactions), ledger, entries)) == 0
  {
    HistoryKeepsCoherent(EMPTY_DB, transactions);
    PostedEntriesStayBalanced(EMPTY_DB, transactions);
    TrialBalanceIsZero(History(EMPTY_DB, transactions), ledger, entries);
  }

  // ----- exactly when every trial balance is zero

  ghost predicate TrialBalancesAreZero(db: Db) {
    forall ledger, entries :: PostedIn(db, ledger, entries) ==> Total(TrialBalance(db, ledger, entries)) == 0
  }

  /** Whether a line books on an account of the ledger. */
  ghost function Inside(db: Db, ledger: Uuid): Line -> bool {
    (l: Line) => l.account in AccountsOf(db, ledger)
  }

  /** The lines of a posted entry on accounts outside its ledger. */
  ghost function Strays(db: Db, e: Uuid): map<Uuid, Line>
    requires e in db.entries
  {
    Where(LinesOf(db.lines, e), Inside(db, db.entries[e].ledger), false)
  }

  lemma SumOfSplit<K>(rows: map<K, Line>, key: Line -> bool)
    ensures Sum(rows, NetOf) == Sum(Where(rows, key, true), NetOf) + Sum(Where(rows, key, false), NetOf)
  {
    SplitWhere(rows, key);
    SumUnion(Where(rows, key, true), Where(rows, key, false), NetOf);
  }

  /** The trial balance adds up the lines on the ledger's own accounts. */
  lemma TrialBalanceIsInside(db: Db, ledger: Uuid, entries: set<Uuid>)
    ensures Total(TrialBalance(db, ledger, entries))
         == Sum(Where(Booked(db, entries), Inside(db, ledger), true), NetOf)
  {
    InsideByAccount(db, ledger, entries);
    SumByGroup(Where(Booked(db, entries), Inside(db, ledger), true), NetOf, AccountOf, AccountsOf(db, ledger));
  }

  lemma InsideByAccount(db: Db, ledger: Uuid, entries: set<Uuid>)
    ensures GroupSums(Where(Booked(db, entries), Inside(db, ledger), true), NetOf, AccountOf, AccountsOf(db, ledger))
         == TrialBalance(db, ledger, entries)
  {
    hide Booked, Sum;
    var lines, accounts := Booked(db, entries), AccountsOf(db, ledger);
    forall a | a in accounts
      ensures Where(Where(lines, Inside(db, ledger), true), AccountOf, a) == Where(lines, AccountOf, a)
    {
    }
  }

  lemma TrialBalanceIsMinusOutside(db: Db, ledger: Uuid, entries: set<Uuid>)
    requires Committed(db) && PostedIn(db, ledger, entries)
    ensures Total(TrialBalance(db, ledger, entries))
         == -Sum(Where(Booked(db, entries), Inside(db, ledger), false), NetOf)
  {
    hide *;
    TrialBalanceIsInside(db, ledger, entries);
    BookedNetIsZero(db, ledger, entries);
    SumOfSplit(Booked(db, entries), Inside(db, ledger));
  }

  lemma StraysOfBooked(db: Db, ledger: Uuid, entries: set<Uuid>, e: Uuid)
    requires PostedIn(db, ledger, entries) && e in entries
    ensures Where(Where(Booked(db, entries), Inside(db, ledger), false), EntryOf, e) == Strays(db, e)
  {
  }

  lemma OutsideIsStrays(db: Db, ledger: Uuid, entries: set<Uuid>)
    requires PostedIn(db, ledger, entries) && forall e :: e in entries ==> Sum(Strays(db, e), NetOf) == 0
    ensures Sum(Where(Booked(db, entries), Inside(db, ledger), false), NetOf) == 0
  {
    var rows := Where(Booked(db, entries), Inside(db, ledger), false);
    SumByGroup(rows, NetOf, EntryOf, entries);
    forall e | e in entries
      ensures Sum(Where(rows, EntryOf, e), NetOf) == 0
    {
      StraysOfBooked(db, ledger, entries, e);
    }
    TotalZero(GroupSums(rows, NetOf, EntryOf, entries));
  }

  lemma OneEntryTrialBalance(db: Db, e: Uuid)
    requires Committed(db) && e in db.entries && db.entries[e].status == Posted
    ensures PostedIn(db, db.entries[e].ledger, {e})
    ensures Total(TrialBalance(db, db.entries[e].ledger, {e})) == -Sum(Strays(db, e), NetOf)
  {
    OutsideOfOneEntry(db, e);
    hide Committed, Booked, Inside, Strays, TrialBalance;
    TrialBalanceIsMinusOutside(db, db.entries[e].ledger, {e});
  }

  lemma OutsideOfOneEntry(db: Db, e: Uuid)
    requires e in db.entries
    ensures Where(Booked(db, {e}), Inside(db, db.entries[e].ledger), false) == Strays(db, e)
  {
  }

  /** In a committed state every trial balance of every ledger is zero if and only if for every
      posted entry the lines on accounts outside its ledger cancel out. */
  lemma TrialBalancesAreZeroIff(db: Db)
    requires Committed(db)
    ensures TrialBalancesAreZero(db)
       <==> forall e :: e in db.entries && db.entries[e].status == Posted ==> Sum(Strays(db, e), NetOf) == 0
  {
    hide Committed, Strays, TrialBalance, Booked, Inside;
    if TrialBalancesAreZero(db) {
      forall e | e in db.entries && db.entries[e].status == Posted
        ensures Sum(Strays(db, e), NetOf) == 0
      {
        OneEntryTrialBalance(db, e);
      }
    }
    if forall e :: e in db.entries && db.entries[e].status == Posted ==> Sum(Strays(db, e), NetOf) == 0 {
      forall ledger, entries | PostedIn(db, ledger, entries)
        ensures Total(TrialBalance(db, ledger, entries)) == 0
      {
        OutsideIsStrays(db, ledger, entries);
        TrialBalanceIsMinusOutside(db, ledger, entries);
      }
    }
  }

  lemma RelabelKeepsCommitted(db: Db, a: Uuid, account: Account)
    requires Committed(db) && a in db.accounts
    ensures Committed(Effect(db, UpdateAccount(a, account)))
  {
    hide IsBalanced, WellFormed;
    StepKeepsWellFormed(db, UpdateAccount(a, account));
  }

  lemma StraysAfterRelabel(db: Db, a: Uuid, account: Account, e: Uuid)
    requires Coherent(db) && a in db.accounts && account.ledger != db.accounts[a].ledger && e in db.entries
    ensures Strays(Effect(db, UpdateAccount(a, account)), e) == Where(LinesOf(db.lines, e), AccountOf, a)
  {
    var next := Effect(db, UpdateAccount(a, account));
    var ledger := db.entries[e].ledger;
    forall l | l in LinesOf(db.lines, e)
      ensures Inside(next, ledger)(db.lines[l]) <==> db.lines[l].account != a
    {
    }
  }

  /** Giving an account to another ledger leaves every trial balance at zero if and only if the
      account nets to zero within each posted entry. */
  lemma RelabelKeepsTrialBalancesIff(db: Db, a: Uuid, account: Account)
    requires Committed(db) && Coherent(db) && a in db.accounts && account.ledger != db.accounts[a].ledger
    ensures TrialBalancesAreZero(Effect(db, UpdateAccount(a, account)))
       <==> forall e :: e in db.entries && db.entries[e].status == Posted ==> Balance(LinesOf(db.lines, e), a) == 0
  {
    var next := Effect(db, UpdateAccount(a, account));
    assert next.entries == db.entries;
    hide Committed, Coherent, Effect, Strays, TrialBalancesAreZero;
    RelabelKeepsCommitted(db, a, account);
    TrialBalancesAreZeroIff(next);
    forall e | e in db.entries
      ensures Sum(Strays(next, e), NetOf) == Balance(LinesOf(db.lines, e), a)
    {
      StraysAfterRelabel(db, a, account, e);
    }
  }

  // ----- open items

  ghost function SettlementsOf(settlements: map<Uuid, Settlement>, item: Uuid): map<Uuid, Settlement> {
    Where(settlements, ItemOf, item)
  }

  ghost function Remainder(db: Db, item: Uuid): int
    requires item in db.items
  {
    db.items[item].amount - Sum(SettlementsOf(db.settlements, item), AmountOf)
  }

  /** Items keep what they claim, and settlements are only ever added. */
  ghost predicate ClaimsKept(before: Db, after: Db) {
    && (forall i :: i in before.items ==>
          i in after.items && ItemUpdateAllowed(before.items[i], after.items[i]))
    && (forall s :: s in before.settlements ==>
          s in after.settlements && after.settlements[s] == before.settlements[s])
  }

  lemma StepKeepsClaims(db: Db, op: Op)
    requires Accepts(db, op)
    ensures ClaimsKept(db, Effect(db, op))
  {
  }

  lemma {:induction false} RunKeepsClaims(s: Session, ops: seq<Op>)
    requires RunOps(s, ops).Some?
    ensures ClaimsKept(s.db, RunOps(s, ops).value.db)
    decreases |ops|
  {
    if ops != [] {
      StepKeepsClaims(s.db, ops[0]);
      RunKeepsClaims(Step(s, ops[0]).value, ops[1..]);
    }
  }

  lemma {:induction false} HistoryKeepsClaims(db: Db, transactions: seq<seq<Op>>)
    ensures ClaimsKept(db, History(db, transactions))
    decreases |transactions|
  {
    if transactions != [] {
      if Commits(db, transactions[0]) {
        RunKeepsClaims(Session(db, []), transactions[0]);
      }
      HistoryKeepsClaims(Transact(db, transactions[0]), transactions[1..]);
    }
  }

  /** What is left of an item later is what was left before, less the settlements since then. */
  lemma RemainderIsConserved(db: Db, transactions: seq<seq<Op>>, item: Uuid)
    requires item in db.items
    ensures
      var later := History(db, transactions);
      && item in later.items
      && ItemUpdateAllowed(db.items[item], later.items[item])
      && Remainder(later, item)
         == Remainder(db, item)
            - Sum(SettlementsOf(later.settlements - db.settlements.Keys, item), AmountOf)
  {
    var later := History(db, transactions);
    HistoryKeepsClaims(db, transactions);
    var before := SettlementsOf(db.settlements, item);
    var since := SettlementsOf(later.settlements - db.settlements.Keys, item);
    SumUnion(before, since, AmountOf);
    WhereUnion(db.settlements, later.settlements - db.settlements.Keys, ItemOf, item);
    assert forall x :: x in db.settlements ==> x in later.settlements && later.settlements[x] == db.settlements[x];
    RestIsAdded(db.settlements, later.settlements);
  }

  /** An accepted settlement lowers the remainder of its own item by its amount, and no other. */
  lemma SettlementLowersRemainder(db: Db, id: Uuid, s: Settlement, item: Uuid)
    requires Accepts(db, InsertSettlement(id, s)) && item in db.items
    ensures Remainder(Effect(db, InsertSettlement(id, s)), item)
         == Remainder(db, item) - (if s.item == item then s.amount else 0)
  {
    var before := SettlementsOf(db.settlements, item);
    var after := SettlementsOf(db.settlements[id := s], item);
    if s.item == item {
      SumAdd(before, AmountOf, id, s);
      assert after == before[id := s];
    } else {
      assert after == before;
    }
  }
}
