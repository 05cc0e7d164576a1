/** What every run of transactions keeps: posted rows, posted lines, numbers and balance. */
module LedgerSafety {
  import opened Sums
  import opened Ledger

  // ----- the constraints hold of every stored row

  ghost predicate EntriesWellFormed(db: Db) {
    && (forall id :: id in db.entries ==> EntryRowChecks(db.entries[id]))
    && (forall a, b :: a in db.entries && b in db.entries && a != b ==> !Clash(db.entries[a], db.entries[b]))
    && (forall id :: id in db.entries && db.entries[id].reverses.Some? ==>
          db.entries[id].reverses.value in db.entries)
    && (forall id :: id in db.entries && db.entries[id].reversedBy.Some? ==>
          db.entries[id].reversedBy.value in db.entries)
  }

  ghost predicate LinesWellFormed(db: Db) {
    forall l :: l in db.lines ==> LineStorable(db, db.lines[l])
  }

  ghost predicate ItemsWellFormed(db: Db) {
    && (forall i :: i in db.items ==> ItemStorable(db, i, db.items[i]))
    && (forall s :: s in db.settlements ==> SettlementStorable(db, db.settlements[s]))
  }

  ghost predicate WellFormed(db: Db) {
    EntriesWellFormed(db) && LinesWellFormed(db) && ItemsWellFormed(db)
  }

  lemma StepKeepsWellFormed(db: Db, op: Op)
    requires WellFormed(db) && Accepts(db, op)
    ensures WellFormed(Effect(db, op))
  {
    StepKeepsEntries(db, op);
    StepKeepsItems(db, op);
  }

  lemma StepKeepsEntries(db: Db, op: Op)
    requires EntriesWellFormed(db) && Accepts(db, op)
    ensures EntriesWellFormed(Effect(db, op))
  {
  }

  lemma StepKeepsItems(db: Db, op: Op)
    requires ItemsWellFormed(db) && Accepts(db, op)
    ensures ItemsWellFormed(Effect(db, op))
  {
    var next := Effect(db, op);
    forall i | i in next.items
      ensures ItemStorable(next, i, next.items[i])
    {
    }
  }

  // ----- posted rows are frozen

  ghost predicate RowFrozen(before: Entry, after: Entry) {
    SameUpToMarks(before, after) && (before.reversedBy.Some? ==> after.reversedBy == before.reversedBy)
  }

  ghost predicate RowsFrozen(before: Db, after: Db) {
    forall id :: id in before.entries && before.entries[id].status == Posted ==>
      id in after.entries && RowFrozen(before.entries[id], after.entries[id])
  }

  // ----- posted lines are frozen, except for one hole

  ghost predicate LinesFrozen(before: Db, after: Db) {
    forall id :: id in before.entries && before.entries[id].status == Posted ==>
      LinesOf(after.lines, id) == LinesOf(before.lines, id)
  }

  /** The update takes a line away from a posted entry. */
  predicate MovesPostedLine(db: Db, op: Op) {
    op.UpdateLine? && op.id in db.lines &&
    var entry := Lookup(db.entries, db.lines[op.id].entry);
    entry.Some? && entry.value.status == Posted
  }

  lemma StepFreezesRows(db: Db, op: Op)
    requires Accepts(db, op)
    ensures RowsFrozen(db, Effect(db, op))
  {
  }

  lemma StepKeepsLinesOf(db: Db, op: Op, e: Uuid)
    requires LinesWellFormed(db) && Accepts(db, op)
    requires e in db.entries && db.entries[e].status == Posted
    requires !MovesPostedLine(db, op)
    ensures LinesOf(Effect(db, op).lines, e) == LinesOf(db.lines, e)
  {
    match op
    case InsertLine(id, l) => assert l.entry != e;
    case UpdateLine(id, l) =>
      if id in db.lines {
        assert l.entry != e && db.lines[id].entry != e;
      }
    case DeleteLine(id) =>
    case DeleteEntry(id) =>
      if id in db.entries {
        assert id != e;
      }
    case _ => assert Effect(db, op).lines == db.lines;
  }

  /** An accepted operation leaves the lines of every posted entry alone if and only if it is not
      an update of such a line: the guard looks only at the entry the new row names. */
  lemma PostedLinesFrozenIff(db: Db, op: Op)
    requires LinesWellFormed(db) && Accepts(db, op)
    ensures LinesFrozen(db, Effect(db, op)) <==> !MovesPostedLine(db, op)
  {
    var next := Effect(db, op);
    if MovesPostedLine(db, op) {
      var from := db.lines[op.id].entry;
      assert op.id in LinesOf(db.lines, from);
      assert op.id !in LinesOf(next.lines, from);
    } else {
      forall id | id in db.entries && db.entries[id].status == Posted
        ensures LinesOf(next.lines, id) == LinesOf(db.lines, id)
      {
        StepKeepsLinesOf(db, op, id);
      }
    }
  }

  ghost predicate Committed(db: Db) {
    && WellFormed(db)
    && (forall e :: e in db.entries && db.entries[e].status == Posted ==> IsBalanced(db.lines, e))
  }

  lemma LosingALineUnbalances<K>(own: map<K, Line>, l: K)
    requires l in own && LineRowChecks(own[l]) && Sum(own, DebitOf) == Sum(own, CreditOf)
    ensures Sum(own - {l}, DebitOf) != Sum(own - {l}, CreditOf)
  {
    assert own == (own - {l})[l := own[l]];
    SumAdd(own - {l}, DebitOf, l, own[l]);
    SumAdd(own - {l}, CreditOf, l, own[l]);
  }

  /** An accepted operation keeps every posted entry balanced if and only if it takes no line away
      from one: a line has one positive side, so an entry that loses one is never balanced. */
  lemma BalanceKeptIff(db: Db, op: Op)
    requires Committed(db) && Accepts(db, op)
    ensures (forall e :: e in db.entries && db.entries[e].status == Posted ==> IsBalanced(Effect(db, op).lines, e))
       <==> !MovesPostedLine(db, op)
  {
    var next := Effect(db, op);
    if MovesPostedLine(db, op) {
      var from := db.lines[op.id].entry;
      var own := LinesOf(db.lines, from);
      assert LineStorable(db, db.lines[op.id]);
      LosingALineUnbalances(own, op.id);
      assert LinesOf(next.lines, from) == own - {op.id};
    } else {
      PostedLinesFrozenIff(db, op);
    }
  }

  // ----- runs

  /** No operation of the run is one of the `bad` ones in the state it meets. */
  ghost predicate Avoids(s: Session, ops: seq<Op>, bad: (Db, Op) -> bool)
    decreases |ops|
  {
    ops != [] && Accepts(s.db, ops[0]) ==>
      !bad(s.db, ops[0]) && Avoids(Step(s, ops[0]).value, ops[1..], bad)
  }

  /** No transaction that commits contains one of the `bad` operations. */
  ghost predicate HistoryAvoids(db: Db, transactions: seq<seq<Op>>, bad: (Db, Op) -> bool)
    decreases |transactions|
  {
    transactions != [] ==>
      && (Commits(db, transactions[0]) ==> Avoids(Session(db, []), transactions[0], bad))
      && HistoryAvoids(Transact(db, transactions[0]), transactions[1..], bad)
  }

  lemma {:induction false} RunFreezesRows(s: Session, ops: seq<Op>)
    requires WellFormed(s.db) && RunOps(s, ops).Some?
    ensures WellFormed(RunOps(s, ops).value.db)
    ensures RowsFrozen(s.db, RunOps(s, ops).value.db)
    decreases |ops|
  {
    if ops != [] {
      StepKeepsWellFormed(s.db, ops[0]);
      StepFreezesRows(s.db, ops[0]);
      RunFreezesRows(Step(s, ops[0]).value, ops[1..]);
    }
  }

  /** In every later state a posted entry is still there, with the row it was posted with; its
      reversal reference is set at most once. No condition on the run is needed. */
  lemma {:induction false} PostedRowsAreForever(db: Db, transactions: seq<seq<Op>>)
    requires WellFormed(db)
    ensures WellFormed(History(db, transactions))
    ensures RowsFrozen(db, History(db, transactions))
    decreases |transactions|
  {
    if transactions != [] {
      if Commits(db, transactions[0]) {
        RunFreezesRows(Session(db, []), transactions[0]);
      }
      PostedRowsAreForever(Transact(db, transactions[0]), transactions[1..]);
    }
  }

  ghost predicate SameNumber(a: Entry, b: Entry) {
    a.tenant == b.tenant && a.ledger == b.ledger && a.fiscalYear == b.fiscalYear && a.number == b.number
  }

  /** The number of a posted entry with a fiscal year names that entry and no other, for good. */
  lemma NumbersNameOneEntryForever(db: Db, transactions: seq<seq<Op>>, id: Uuid, other: Uuid)
    requires WellFormed(db)
    requires id in db.entries && db.entries[id].status == Posted && db.entries[id].fiscalYear.Some?
    requires other in History(db, transactions).entries
    requires SameNumber(History(db, transactions).entries[other], db.entries[id])
    ensures other == id
  {
    PostedRowsAreForever(db, transactions);
    var later := History(db, transactions);
    assert EntryRowChecks(db.entries[id]);
    if other != id {
      assert Clash(later.entries[id], later.entries[other]);
    }
  }

  // ----- balance at every commit

  predicate Queued(s: Session, e: Uuid) {
    exists event :: event in s.pending && event.id == e && event.row.status == Posted
  }

  ghost predicate BalancedOrQueued(s: Session) {
    forall e :: e in s.db.entries && s.db.entries[e].status == Posted ==>
      IsBalanced(s.db.lines, e) || Queued(s, e)
  }

  lemma StepKeepsQueued(s: Session, op: Op, e: Uuid)
    requires Accepts(s.db, op) && Queued(s, e)
    ensures Queued(Step(s, op).value, e)
  {
  }

  lemma StepKeepsBalancedOrQueued(s: Session, op: Op)
    requires WellFormed(s.db) && BalancedOrQueued(s)
    requires Accepts(s.db, op) && !MovesPostedLine(s.db, op)
    ensures BalancedOrQueued(Step(s, op).value)
  {
    var next := Step(s, op).value;
    forall e | e in next.db.entries && next.db.entries[e].status == Posted
      ensures IsBalanced(next.db.lines, e) || Queued(next, e)
    {
      if e in s.db.entries && s.db.entries[e].status == Posted {
        StepKeepsLinesOf(s.db, op, e);
        if Queued(s, e) {
          StepKeepsQueued(s, op, e);
        }
      } else {
        assert Event(e, next.db.entries[e]) in next.pending;
      }
    }
  }

  lemma {:induction false} RunKeepsBalancedOrQueued(s: Session, ops: seq<Op>)
    requires WellFormed(s.db) && BalancedOrQueued(s)
    requires RunOps(s, ops).Some? && Avoids(s, ops, MovesPostedLine)
    ensures BalancedOrQueued(RunOps(s, ops).value)
    ensures LinesFrozen(s.db, RunOps(s, ops).value.db)
    decreases |ops|
  {
    if ops != [] {
      var next := Step(s, ops[0]).value;
      StepKeepsWellFormed(s.db, ops[0]);
      StepKeepsBalancedOrQueued(s, ops[0]);
      StepFreezesRows(s.db, ops[0]);
      PostedLinesFrozenIff(s.db, ops[0]);
      RunKeepsBalancedOrQueued(next, ops[1..]);
    }
  }

  /** Transactions that move no line away from a posted entry keep every posted entry balanced,
      with at least two lines, and never touch its lines again. */
  lemma {:induction false} PostedEntriesStayBalanced(db: Db, transactions: seq<seq<Op>>)
    requires Committed(db) && HistoryAvoids(db, transactions, MovesPostedLine)
    ensures Committed(History(db, transactions))
    ensures LinesFrozen(db, History(db, transactions))
    decreases |transactions|
  {
    if transactions != [] {
      var ops, next := transactions[0], Transact(db, transactions[0]);
      if Commits(db, ops) {
        var start := Session(db, []);
        RunFreezesRows(start, ops);
        RunKeepsBalancedOrQueued(start, ops);
      }
      PostedEntriesStayBalanced(next, transactions[1..]);
    }
  }

  lemma EveryCommittedStateIsBalanced(transactions: seq<seq<Op>>)
    requires HistoryAvoids(EMPTY_DB, transactions, MovesPostedLine)
    ensures Committed(History(EMPTY_DB, transactions))
  {
    PostedEntriesStayBalanced(EMPTY_DB, transactions);
  }

  // ----- for a whole run, frozen lines have an exact condition too

  /** The operation takes a line away from an entry that was posted in the state `start`. */
  predicate MovesLineOf(start: Db, db: Db, op: Op) {
    op.UpdateLine? && op.id in db.lines &&
    var entry := Lookup(start.entries, db.lines[op.id].entry);
    entry.Some? && entry.value.status == Posted
  }

  ghost predicate IsPartOf<K, V>(part: map<K, V>, whole: map<K, V>) {
    forall k :: k in part ==> k in whole && part[k] == whole[k]
  }

  ghost predicate LinesShrink(start: Db, before: Db, after: Db) {
    forall e :: e in start.entries && start.entries[e].status == Posted ==>
      IsPartOf(LinesOf(after.lines, e), LinesOf(before.lines, e))
  }

  ghost predicate LinesSame(start: Db, before: Db, after: Db) {
    forall e :: e in start.entries && start.entries[e].status == Posted ==>
      LinesOf(after.lines, e) == LinesOf(before.lines, e)
  }

  lemma StepOnStartLines(start: Db, db: Db, op: Op)
    requires RowsFrozen(start, db) && Accepts(db, op)
    ensures LinesShrink(start, db, Effect(db, op))
    ensures !MovesLineOf(start, db, op) ==> LinesSame(start, db, Effect(db, op))
    ensures MovesLineOf(start, db, op) ==>
      var e := db.lines[op.id].entry;
      op.id in LinesOf(db.lines, e) && op.id !in LinesOf(Effect(db, op).lines, e)
  {
    var next := Effect(db, op);
    forall e | e in start.entries && start.entries[e].status == Posted
      ensures IsPartOf(LinesOf(next.lines, e), LinesOf(db.lines, e))
      ensures !MovesLineOf(start, db, op) ==> LinesOf(next.lines, e) == LinesOf(db.lines, e)
    {
      StepOnLinesOf(start, db, op, e);
    }
  }

  lemma StepOnLinesOf(start: Db, db: Db, op: Op, e: Uuid)
    requires RowsFrozen(start, db) && Accepts(db, op)
    requires e in start.entries && start.entries[e].status == Posted
    ensures IsPartOf(LinesOf(Effect(db, op).lines, e), LinesOf(db.lines, e))
    ensures !MovesLineOf(start, db, op) ==> LinesOf(Effect(db, op).lines, e) == LinesOf(db.lines, e)
  {
    assert e in db.entries && db.entries[e].status == Posted;
    match op
    case InsertLine(id, l) => assert l.entry != e;
    case UpdateLine(id, l) =>
      if id in db.lines {
        assert l.entry != e;
      }
    case DeleteLine(id) =>
    case DeleteEntry(id) =>
      if id in db.entries {
        assert id != e;
      }
    case _ => assert Effect(db, op).lines == db.lines;
  }

  lemma {:induction false} RunOnStartLines(start: Db, s: Session, ops: seq<Op>)
    requires WellFormed(s.db) && RowsFrozen(start, s.db) && RunOps(s, ops).Some?
    ensures RowsFrozen(start, RunOps(s, ops).value.db)
    ensures LinesShrink(start, s.db, RunOps(s, ops).value.db)
    ensures LinesSame(start, s.db, RunOps(s, ops).value.db)
       <==> Avoids(s, ops, (db, op) => MovesLineOf(start, db, op))
    decreases |ops|
  {
    hide Accepts, Effect, WellFormed;
    if ops != [] {
      var next := Step(s, ops[0]).value;
      StepKeepsWellFormed(s.db, ops[0]);
      StepFreezesRows(s.db, ops[0]);
      StepOnStartLines(start, s.db, ops[0]);
      RunOnStartLines(start, next, ops[1..]);
      SameThroughMiddle(start, s.db, next.db, RunOps(s, ops).value.db);
    }
  }

  lemma Squeezed<K, V>(a: map<K, V>, b: map<K, V>, c: map<K, V>)
    requires IsPartOf(b, a) && IsPartOf(c, b)
    ensures IsPartOf(c, a)
    ensures a == c ==> a == b
  {
  }

  lemma SameThroughMiddle(start: Db, a: Db, b: Db, c: Db)
    requires LinesShrink(start, a, b) && LinesShrink(start, b, c)
    ensures LinesShrink(start, a, c)
    ensures LinesSame(start, a, c) <==> LinesSame(start, a, b) && LinesSame(start, b, c)
  {
    forall e | e in start.entries && start.entries[e].status == Posted
      ensures IsPartOf(LinesOf(c.lines, e), LinesOf(a.lines, e))
      ensures LinesOf(c.lines, e) == LinesOf(a.lines, e)
         ==> LinesOf(b.lines, e) == LinesOf(a.lines, e) == LinesOf(c.lines, e)
    {
      Squeezed(LinesOf(a.lines, e), LinesOf(b.lines, e), LinesOf(c.lines, e));
    }
  }

  lemma {:induction false} HistoryOnStartLines(start: Db, db: Db, transactions: seq<seq<Op>>)
    requires WellFormed(db) && RowsFrozen(start, db)
    ensures LinesShrink(start, db, History(db, transactions))
    ensures LinesSame(start, db, History(db, transactions))
       <==> HistoryAvoids(db, transactions, (d, op) => MovesLineOf(start, d, op))
    decreases |transactions|
  {
    hide WellFormed, RowsFrozen, LinesShrink, LinesSame;
    if transactions == [] {
      NothingShrinks(start, db);
    } else {
      var next := Transact(db, transactions[0]);
      if Commits(db, transactions[0]) {
        RunFreezesRows(Session(db, []), transactions[0]);
        RunOnStartLines(start, Session(db, []), transactions[0]);
      } else {
        NothingShrinks(start, db);
      }
      HistoryOnStartLines(start, next, transactions[1..]);
      SameThroughMiddle(start, db, next, History(db, transactions));
    }
  }

  lemma NothingShrinks(start: Db, db: Db)
    ensures LinesShrink(start, db, db) && LinesSame(start, db, db)
  {
  }

  /** Over any history, the lines of the entries posted at its start stay as they are if and only
      if no transaction that commits takes one of those lines away: lines lost never come back. */
  lemma PostedLinesFrozenForeverIff(db: Db, transactions: seq<seq<Op>>)
    requires WellFormed(db)
    ensures LinesFrozen(db, History(db, transactions))
       <==> HistoryAvoids(db, transactions, (d, op) => MovesLineOf(db, d, op))
  {
    HistoryOnStartLines(db, db, transactions);
    assert LinesFrozen(db, History(db, transactions)) <==> LinesSame(db, db, History(db, transactions));
  }

  // ----- an entry cannot be born posted

  /** A posted entry without lines whose check is queued: the run can no longer commit. */
  ghost predicate Doomed(s: Session, e: Uuid) {
    && e in s.db.entries && s.db.entries[e].status == Posted
    && LinesOf(s.db.lines, e) == map[] && Queued(s, e)
  }

  lemma StepKeepsDoomed(s: Session, op: Op, e: Uuid)
    requires WellFormed(s.db) && Accepts(s.db, op) && Doomed(s, e)
    ensures Doomed(Step(s, op).value, e)
  {
    var next := Step(s, op).value;
    StepFreezesRows(s.db, op);
    StepKeepsQueued(s, op, e);
    forall l | l in next.db.lines
      ensures next.db.lines[l].entry != e
    {
      assert l !in LinesOf(s.db.lines, e);
    }
  }

  lemma {:induction false} RunKeepsDoomed(s: Session, ops: seq<Op>, e: Uuid)
    requires WellFormed(s.db) && Doomed(s, e) && RunOps(s, ops).Some?
    ensures Doomed(RunOps(s, ops).value, e)
    decreases |ops|
  {
    if ops != [] {
      StepKeepsWellFormed(s.db, ops[0]);
      StepKeepsDoomed(s, ops[0], e);
      RunKeepsDoomed(Step(s, ops[0]).value, ops[1..], e);
    }
  }

  lemma {:induction false} InsertPostedDooms(s: Session, ops: seq<Op>, k: nat)
    requires WellFormed(s.db) && RunOps(s, ops).Some?
    requires k < |ops| && ops[k].InsertEntry? && ops[k].entry.status == Posted
    ensures Doomed(RunOps(s, ops).value, ops[k].id)
    decreases |ops|
  {
    var next := Step(s, ops[0]).value;
    StepKeepsWellFormed(s.db, ops[0]);
    if k == 0 {
      var event := Event(ops[0].id, ops[0].entry);
      assert event in next.pending;
      forall l | l in next.db.lines
        ensures next.db.lines[l].entry != event.id
      {
        assert LineStorable(s.db, s.db.lines[l]);
      }
      RunKeepsDoomed(next, ops[1..], event.id);
    } else {
      InsertPostedDooms(next, ops[1..], k - 1);
    }
  }

  /** Posting is a change of a draft: a transaction that inserts an entry as posted never commits. */
  lemma PostedInsertNeverCommits(db: Db, ops: seq<Op>, k: nat)
    requires WellFormed(db)
    requires k < |ops| && ops[k].InsertEntry? && ops[k].entry.status == Posted
    ensures !Commits(db, ops) && Transact(db, ops) == db
  {
    var end := RunOps(Session(db, []), ops);
    if end.Some? {
      InsertPostedDooms(Session(db, []), ops, k);
      var event :| event in end.value.pending && event.id == ops[k].id && event.row.status == Posted;
      assert !PassesDeferredCheck(end.value.db, event);
    }
  }
}
