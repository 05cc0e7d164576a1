/** A transaction said through the states it passes through, without sessions and queues. */
module LedgerTransactions {
  import opened Wrappers
  import opened Sums
  import opened Ledger
  import opened LedgerReports

  /** The tables before the first statement and after each one. */
  predicate IsPassage(states: seq<Db>, ops: seq<Op>) {
    |states| == |ops| + 1
    && forall i :: 0 <= i < |ops| ==> Accepts(states[i], ops[i]) && states[i + 1] == Effect(states[i], ops[i])
  }

  /** The statement writes this row of `journal_entry`. */
  predicate Writes(db: Db, op: Op, e: Uuid, row: Entry) {
    (op == InsertEntry(e, row)) || (op == UpdateEntry(e, row) && e in db.entries)
  }

  predicate IsWritten(states: seq<Db>, ops: seq<Op>, e: Uuid, row: Entry)
    requires |states| == |ops| + 1
  {
    exists i :: 0 <= i < |ops| && Writes(states[i], ops[i], e, row)
  }

  /** At the end every entry that some statement wrote as posted has two lines and equal sides. */
  ghost predicate EndsBalanced(states: seq<Db>, ops: seq<Op>) {
    |states| == |ops| + 1
    && forall e, row :: IsWritten(states, ops, e, row) && row.status == Posted ==>
         HasEqualSides(states[|ops|].lines, e)
  }

  ghost predicate HasEqualSides(lines: map<Uuid, Line>, e: Uuid) {
    && (exists a, b :: a in lines && b in lines && a != b && lines[a].entry == e && lines[b].entry == e)
    && Sum(Where(lines, EntryOf, e), NetOf) == 0
  }

  lemma EqualSidesIff(lines: map<Uuid, Line>, e: Uuid)
    ensures IsBalanced(lines, e) <==> HasEqualSides(lines, e)
  {
    var own := LinesOf(lines, e);
    NetIsDifference(own);
    if |own| >= 2 {
      assert |own.Keys| >= 2;
      var a, b := TwoOf(own.Keys);
      assert a in lines && b in lines && a != b && lines[a].entry == e && lines[b].entry == e;
    }
    if a, b :| a in lines && b in lines && a != b && lines[a].entry == e && lines[b].entry == e {
      assert a in own && b in own;
      assert {a, b} <= own.Keys;
      SubsetIsSmaller({a, b}, own.Keys);
    }
  }

  lemma TwoOf<T>(s: set<T>) returns (a: T, b: T)
    requires |s| >= 2
    ensures a in s && b in s && a != b
  {
    assert s != {};
    a :| a in s;
    var rest := s - {a};
    assert |rest| == |s| - 1 && rest != {};
    b :| b in rest;
  }

  lemma {:induction false} SubsetIsSmaller<T>(a: set<T>, b: set<T>)
    requires a <= b
    ensures |a| <= |b|
    decreases |a|
  {
    if x :| x in a {
      SubsetIsSmaller(a - {x}, b - {x});
    }
  }

  // ----- sessions pass through the same states

  lemma StepPasses(s: Session, op: Op)
    requires Accepts(s.db, op)
    ensures Step(s, op).Some? && Step(s, op).value.db == Effect(s.db, op)
    ensures forall event :: event in Step(s, op).value.pending <==>
      event in s.pending || Writes(s.db, op, event.id, event.row)
  {
  }

  lemma WrittenFirst(states: seq<Db>, ops: seq<Op>, e: Uuid, row: Entry)
    requires |states| == |ops| + 1 && ops != []
    ensures IsWritten(states, ops, e, row) <==>
      Writes(states[0], ops[0], e, row) || IsWritten(states[1..], ops[1..], e, row)
  {
    hide Writes;
    if i :| 0 < i < |ops| && Writes(states[i], ops[i], e, row) {
      assert states[1..][i - 1] == states[i] && ops[1..][i - 1] == ops[i];
    }
  }

  lemma {:induction false} RunPasses(s: Session, states: seq<Db>, ops: seq<Op>)
    requires IsPassage(states, ops) && states[0] == s.db
    ensures RunOps(s, ops).Some? && RunOps(s, ops).value.db == states[|ops|]
    ensures forall event :: event in RunOps(s, ops).value.pending <==>
      event in s.pending || IsWritten(states, ops, event.id, event.row)
    decreases |ops|
  {
    hide Accepts, Effect, IsWritten, Writes;
    if ops == [] {
      NothingWritten(states);
    } else {
      StepPasses(s, ops[0]);
      var next := Step(s, ops[0]).value;
      PassageFirst(states, ops);
      RunPasses(next, states[1..], ops[1..]);
      forall event
        ensures event in RunOps(s, ops).value.pending <==>
          event in s.pending || IsWritten(states, ops, event.id, event.row)
      {
        WrittenFirst(states, ops, event.id, event.row);
      }
    }
  }

  lemma NothingWritten(states: seq<Db>)
    requires |states| == 1
    ensures forall e, row :: !IsWritten(states, [], e, row)
  {
  }

  lemma PassageFirst(states: seq<Db>, ops: seq<Op>)
    requires ops != [] && |states| == |ops| + 1
    ensures IsPassage(states, ops) <==>
      Accepts(states[0], ops[0]) && states[1] == Effect(states[0], ops[0]) && IsPassage(states[1..], ops[1..])
  {
    hide Accepts, Effect;
    if Accepts(states[0], ops[0]) && states[1] == Effect(states[0], ops[0]) && IsPassage(states[1..], ops[1..]) {
      forall i | 0 < i < |ops|
        ensures Accepts(states[i], ops[i]) && states[i + 1] == Effect(states[i], ops[i])
      {
        assert states[1..][i - 1] == states[i] && ops[1..][i - 1] == ops[i] && states[1..][i - 1 + 1] == states[i + 1];
      }
    }
  }

  lemma {:induction false} RunHasPassage(s: Session, ops: seq<Op>) returns (states: seq<Db>)
    requires RunOps(s, ops).Some?
    ensures IsPassage(states, ops) && states[0] == s.db
    decreases |ops|
  {
    hide Accepts, Effect, Queue;
    if ops == [] {
      states := [s.db];
    } else {
      var rest := RunHasPassage(Step(s, ops[0]).value, ops[1..]);
      states := [s.db] + rest;
      assert states[1..] == rest;
      PassageFirst(states, ops);
    }
  }

  // ----- commit and rollback

  lemma PassageDecides(db: Db, ops: seq<Op>, states: seq<Db>)
    requires IsPassage(states, ops) && states[0] == db
    ensures Commits(db, ops) <==> EndsBalanced(states, ops)
    ensures Commits(db, ops) ==> Transact(db, ops) == states[|ops|]
  {
    hide IsWritten, HasEqualSides, IsBalanced, RunOps, Accepts, Effect;
    RunPasses(Session(db, []), states, ops);
    var end := RunOps(Session(db, []), ops).value;
    forall e
      ensures IsBalanced(end.db.lines, e) <==> HasEqualSides(end.db.lines, e)
    {
      EqualSidesIff(end.db.lines, e);
    }
    if Commits(db, ops) {
      forall e, row | IsWritten(states, ops, e, row) && row.status == Posted
        ensures HasEqualSides(end.db.lines, e)
      {
        assert PassesDeferredCheck(end.db, Event(e, row));
      }
    }
  }

  /** A transaction commits if and only if each statement is accepted in the state the earlier ones
      left and, at the end, every entry written as posted has lines on two equal sides. Then the last
      state is kept; otherwise the first one is. */
  lemma TransactionIs(db: Db, ops: seq<Op>)
    ensures Commits(db, ops) <==>
      exists states :: IsPassage(states, ops) && states[0] == db && EndsBalanced(states, ops)
    ensures forall states :: IsPassage(states, ops) && states[0] == db && EndsBalanced(states, ops) ==>
      Transact(db, ops) == states[|ops|]
    ensures !Commits(db, ops) ==> Transact(db, ops) == db
  {
    hide RunOps;
    forall states | IsPassage(states, ops) && states[0] == db
      ensures Commits(db, ops) <==> EndsBalanced(states, ops)
      ensures Commits(db, ops) ==> Transact(db, ops) == states[|ops|]
    {
      PassageDecides(db, ops, states);
    }
    if Commits(db, ops) {
      var states := RunHasPassage(Session(db, []), ops);
      assert EndsBalanced(states, ops);
    }
  }

  /** A refused statement undoes the statements before it and keeps those behind it from running. */
  lemma RefusalUndoesAll(db: Db, ops: seq<Op>, states: seq<Db>, k: nat)
    requires k < |ops| && IsPassage(states, ops[..k]) && states[0] == db && !Accepts(states[k], ops[k])
    ensures Transact(db, ops) == db && !Commits(db, ops)
  {
    TransactionIs(db, ops);
    if Commits(db, ops) {
      var all :| IsPassage(all, ops) && all[0] == db && EndsBalanced(all, ops);
      SamePassage(states, all, ops, k);
    }
  }

  lemma {:induction false} SamePassage(a: seq<Db>, b: seq<Db>, ops: seq<Op>, k: nat)
    requires k < |ops| && |a| > k && IsPassage(b, ops) && a[0] == b[0]
    requires forall i :: 0 <= i < k ==> a[i + 1] == Effect(a[i], ops[..k][i])
    ensures a[k] == b[k] && Accepts(b[k], ops[k])
    decreases k
  {
    hide Accepts, Effect;
    if k > 0 {
      assert ops[..k - 1] == ops[..k][..k - 1];
      SamePassage(a, b, ops, k - 1);
    }
  }

  // ----- open items

  /** An item without settlements remains in full. */
  lemma NewItemRemainsInFull(db: Db, item: Uuid)
    requires item in db.items && forall s :: s in db.settlements ==> db.settlements[s].item != item
    ensures Remainder(db, item) == db.items[item].amount
  {
    var none := SettlementsOf(db.settlements, item);
    assert forall s :: s !in none.Keys;
    assert none.Keys == {};
    assert none == map[];
    SumEmpty(none, AmountOf);
  }
}
