/** What the guards let through: which bookings and postings commit, when a number stays unique,
    and three concrete histories that reach states a reader might think impossible. */
module LedgerHoles {
  import opened Wrappers
  import opened Sums
  import opened Ledger
  import opened LedgerSafety
  import opened LedgerReports

  lemma {:induction false} RunOne(s: Session, op: Op, rest: seq<Op>)
    ensures RunOps(s, [op] + rest) == if Accepts(s.db, op) then RunOps(Step(s, op).value, rest) else None
  {
  }

  /** Posting a draft on its own commits if and only if its lines balance. */
  lemma PostingCommitsIff(db: Db, e: Uuid, posted: Entry)
    requires e in db.entries && db.entries[e].status == Draft
    requires posted.status == Posted && EntryStorable(db, e, posted)
    ensures Commits(db, [UpdateEntry(e, posted)]) <==> IsBalanced(db.lines, e)
  {
    var op := UpdateEntry(e, posted);
    var start := Session(db, []);
    RunOne(start, op, []);
    assert [op] + [] == [op];
    assert RunOps(Step(start, op).value, []) == Step(start, op);
    var end := Step(start, op).value;
    assert end.pending == [Event(e, posted)];
    assert Event(e, posted) in end.pending;
    assert end.db.lines == db.lines;
  }

  // ----- a booking: draft, lines, post, in one transaction

  datatype NewLine = NewLine(id: Uuid, line: Line)

  function LineOps(rows: seq<NewLine>): seq<Op> {
    if rows == [] then [] else [InsertLine(rows[0].id, rows[0].line)] + LineOps(rows[1..])
  }

  function Booking(e: Uuid, draft: Entry, rows: seq<NewLine>, posted: Entry): seq<Op> {
    [InsertEntry(e, draft)] + (LineOps(rows) + [UpdateEntry(e, posted)])
  }

  predicate LinesName(rows: seq<NewLine>, e: Uuid) {
    forall k :: 0 <= k < |rows| ==> rows[k].line.entry == e
  }

  function AddLines(lines: map<Uuid, Line>, rows: seq<NewLine>): map<Uuid, Line>
    decreases |rows|
  {
    if rows == [] then lines else AddLines(lines[rows[0].id := rows[0].line], rows[1..])
  }

  predicate FreshIds(lines: map<Uuid, Line>, rows: seq<NewLine>) {
    && (forall k :: 0 <= k < |rows| ==> rows[k].id !in lines)
    && (forall j, k :: 0 <= j < k < |rows| ==> rows[j].id != rows[k].id)
  }

  /** One line on an account of the ledger, with one positive side. */
  predicate LineFits(db: Db, ledger: Uuid, l: Line) {
    LineRowChecks(l) && l.account in db.accounts && db.accounts[l.account].ledger == ledger
  }

  predicate LinesFit(db: Db, ledger: Uuid, rows: seq<NewLine>) {
    forall k :: 0 <= k < |rows| ==> LineFits(db, ledger, rows[k].line)
  }

  function TotalOf(rows: seq<NewLine>, side: Line -> int): int {
    if rows == [] then 0 else side(rows[0].line) + TotalOf(rows[1..], side)
  }

  lemma {:induction false} LinesRun(s: Session, e: Uuid, rows: seq<NewLine>, rest: seq<Op>)
    requires e in s.db.entries && s.db.entries[e].status == Draft && LinesName(rows, e)
    ensures RunOps(s, LineOps(rows) + rest)
         == if FreshIds(s.db.lines, rows) && LinesFit(s.db, s.db.entries[e].ledger, rows)
            then RunOps(s.(db := s.db.(lines := AddLines(s.db.lines, rows))), rest) else None
    decreases |rows|
  {
    if rows == [] {
      assert LineOps(rows) + rest == rest;
    } else {
      var op := InsertLine(rows[0].id, rows[0].line);
      assert LineOps(rows) + rest == [op] + (LineOps(rows[1..]) + rest);
      RunOne(s, op, LineOps(rows[1..]) + rest);
      LineStepAccepted(s.db, e, rows[0]);
      RowsFitTail(s.db, e, rows);
      if Accepts(s.db, op) {
        LinesRun(Step(s, op).value, e, rows[1..], rest);
      }
    }
  }

  lemma LineStepAccepted(db: Db, e: Uuid, row: NewLine)
    requires e in db.entries && db.entries[e].status == Draft && row.line.entry == e
    ensures Accepts(db, InsertLine(row.id, row.line))
       <==> row.id !in db.lines && LineFits(db, db.entries[e].ledger, row.line)
  {
  }

  lemma RowsFitTail(db: Db, e: Uuid, rows: seq<NewLine>)
    requires rows != [] && e in db.entries
    ensures FreshIds(db.lines, rows)
       <==> rows[0].id !in db.lines && FreshIds(db.lines[rows[0].id := rows[0].line], rows[1..])
    ensures
      var next := db.(lines := db.lines[rows[0].id := rows[0].line]);
      LinesFit(db, db.entries[e].ledger, rows)
      <==> LineFits(db, db.entries[e].ledger, rows[0].line) && LinesFit(next, next.entries[e].ledger, rows[1..])
  {
    var lines := db.lines[rows[0].id := rows[0].line];
    if FreshIds(lines, rows[1..]) && rows[0].id !in db.lines {
      forall k | 0 <= k < |rows|
        ensures rows[k].id !in db.lines && (k > 0 ==> rows[k].id != rows[0].id)
      {
        if k > 0 {
          assert rows[1..][k - 1].id !in lines;
        }
      }
      forall j, k | 0 <= j < k < |rows|
        ensures rows[j].id != rows[k].id
      {
        if j > 0 {
          assert rows[1..][j - 1].id != rows[1..][k - 1].id;
        }
      }
    }
    var ledger := db.entries[e].ledger;
    if LinesFit(db.(lines := lines), ledger, rows[1..]) && LineFits(db, ledger, rows[0].line) {
      forall k | 0 <= k < |rows|
        ensures LineFits(db, db.entries[e].ledger, rows[k].line)
      {
        if k > 0 {
          assert LineFits(db.(lines := lines), db.entries[e].ledger, rows[1..][k - 1].line);
        }
      }
    }
  }

  lemma {:induction false} AddedLines(lines: map<Uuid, Line>, e: Uuid, rows: seq<NewLine>)
    requires LinesName(rows, e) && FreshIds(lines, rows)
    ensures var own, added := LinesOf(lines, e), LinesOf(AddLines(lines, rows), e);
            && |added| == |own| + |rows|
            && Sum(added, DebitOf) == Sum(own, DebitOf) + TotalOf(rows, DebitOf)
            && Sum(added, CreditOf) == Sum(own, CreditOf) + TotalOf(rows, CreditOf)
    decreases |rows|
  {
    if rows != [] {
      var row := rows[0];
      var next := lines[row.id := row.line];
      assert LinesOf(next, e) == LinesOf(lines, e)[row.id := row.line];
      SumAdd(LinesOf(lines, e), DebitOf, row.id, row.line);
      SumAdd(LinesOf(lines, e), CreditOf, row.id, row.line);
      AddedLines(next, e, rows[1..]);
    }
  }

  /** A booking of any draft with any lines commits if and only if both rows are storable, every
      line fits under a free id, and there are at least two of them with equal sides. */
  lemma {:induction false} BookingCommitsIff(db: Db, e: Uuid, draft: Entry, rows: seq<NewLine>, posted: Entry)
    requires LinesWellFormed(db) && draft.status == Draft && posted.status == Posted && LinesName(rows, e)
    ensures Commits(db, Booking(e, draft, rows, posted))
       <==> && e !in db.entries && EntryStorable(db, e, draft) && EntryStorable(db, e, posted)
            && FreshIds(db.lines, rows) && LinesFit(db, draft.ledger, rows)
            && |rows| >= 2 && TotalOf(rows, DebitOf) == TotalOf(rows, CreditOf)
    ensures Commits(db, Booking(e, draft, rows, posted)) ==>
      Transact(db, Booking(e, draft, rows, posted))
      == db.(entries := db.entries[e := posted], lines := AddLines(db.lines, rows))
  {
    hide EntryStorable, IsBalanced, LinesFit, FreshIds, AddLines;
    var start, ops := Session(db, []), Booking(e, draft, rows, posted);
    RunOne(start, InsertEntry(e, draft), LineOps(rows) + [UpdateEntry(e, posted)]);
    if e !in db.entries && EntryStorable(db, e, draft) {
      var drafted := Step(start, InsertEntry(e, draft)).value;
      LinesRun(drafted, e, rows, [UpdateEntry(e, posted)]);
      FitIsStable(db, drafted.db, draft.ledger, rows);
      if FreshIds(db.lines, rows) && LinesFit(db, draft.ledger, rows) {
        BookingEnds(db, e, draft, AddLines(db.lines, rows), posted);
        var end := db.(entries := db.entries[e := posted], lines := AddLines(db.lines, rows));
        OnlyPostingIsChecked(end, e, draft, posted);
        AddedLinesBalance(db, e, rows);
      }
    }
  }

  lemma FitIsStable(a: Db, b: Db, ledger: Uuid, rows: seq<NewLine>)
    requires a.accounts == b.accounts
    ensures LinesFit(a, ledger, rows) <==> LinesFit(b, ledger, rows)
  {
  }

  lemma BookingEnds(db: Db, e: Uuid, draft: Entry, lines: map<Uuid, Line>, posted: Entry)
    requires e !in db.entries && draft.status == Draft && posted.status == Posted
    ensures
      var filled := db.(entries := db.entries[e := draft], lines := lines);
      var posting := db.(entries := db.entries[e := posted], lines := lines);
      RunOps(Session(filled, [Event(e, draft)]), [UpdateEntry(e, posted)])
      == if EntryStorable(db, e, posted) then Some(Session(posting, [Event(e, draft), Event(e, posted)])) else None
  {
    var filled := db.(entries := db.entries[e := draft], lines := lines);
    var s, op := Session(filled, [Event(e, draft)]), UpdateEntry(e, posted);
    StorableBeside(db, filled, e, posted);
    hide EntryStorable;
    RunOne(s, op, []);
    assert [op] + [] == [op];
    assert filled.entries[e := posted] == db.entries[e := posted];
    assert s.pending + [Event(e, posted)] == [Event(e, draft), Event(e, posted)];
  }

  lemma OnlyPostingIsChecked(db: Db, e: Uuid, draft: Entry, posted: Entry)
    requires draft.status == Draft && posted.status == Posted
    ensures (forall event :: event in [Event(e, draft), Event(e, posted)] ==> PassesDeferredCheck(db, event))
       <==> IsBalanced(db.lines, e)
  {
    hide IsBalanced;
    assert Event(e, posted) in [Event(e, draft), Event(e, posted)];
  }

  lemma AddedLinesBalance(db: Db, e: Uuid, rows: seq<NewLine>)
    requires LinesWellFormed(db) && e !in db.entries && LinesName(rows, e) && FreshIds(db.lines, rows)
    ensures IsBalanced(AddLines(db.lines, rows), e)
       <==> |rows| >= 2 && TotalOf(rows, DebitOf) == TotalOf(rows, CreditOf)
  {
    NoLinesYet(db, e);
    AddedLines(db.lines, e, rows);
  }

  lemma NoLinesYet(db: Db, e: Uuid)
    requires LinesWellFormed(db) && e !in db.entries
    ensures LinesOf(db.lines, e) == map[]
    ensures Sum(LinesOf(db.lines, e), DebitOf) == 0 == Sum(LinesOf(db.lines, e), CreditOf)
  {
    forall l | l in db.lines
      ensures db.lines[l].entry != e
    {
      assert LineStorable(db, db.lines[l]);
    }
    SumEmpty(LinesOf(db.lines, e), DebitOf);
    SumEmpty(LinesOf(db.lines, e), CreditOf);
  }

  /** A row is stored beside the other rows; what stands under its own id does not matter. */
  lemma StorableBeside(a: Db, b: Db, id: Uuid, e: Entry)
    requires b.entries.Keys == a.entries.Keys + {id}
    requires forall other :: other in a.entries && other != id ==> b.entries[other] == a.entries[other]
    ensures EntryStorable(a, id, e) <==> EntryStorable(b, id, e)
  {
  }

  lemma SingleCommits(db: Db, op: Op)
    requires Accepts(db, op) && Queue(Session(db, []), op) == []
    ensures Commits(db, [op]) && Transact(db, [op]) == Effect(db, op)
  {
    RunOne(Session(db, []), op, []);
    assert [op] + [] == [op];
  }

  lemma HistoryOne(db: Db, ops: seq<Op>, rest: seq<seq<Op>>)
    ensures History(db, [ops] + rest) == History(Transact(db, ops), rest)
  {
  }

  lemma HistoryTwo(db: Db, a: seq<Op>, b: seq<Op>)
    ensures History(db, [a] + [b]) == Transact(Transact(db, a), b)
  {
    var none: seq<seq<Op>> := [];
    HistoryOne(db, a, [b]);
    HistoryOne(Transact(db, a), b, none);
    assert [b] + none == [b];
  }

  // ----- a number names one entry for good exactly when the entry has a fiscal year

  lemma {:induction false} Fresh(used: set<Uuid>) returns (id: Uuid)
    decreases used
    ensures forall u :: u in used ==> u < id
  {
    if u :| u in used {
      var below := Fresh(used - {u});
      id := if below > u then below else u + 1;
      forall v | v in used
        ensures v < id
      {
        assert v == u || v in used - {u};
      }
    } else {
      id := 0;
    }
  }

  ghost predicate NumberStaysUnique(db: Db, id: Uuid)
    requires id in db.entries
  {
    forall transactions, other ::
      (other in History(db, transactions).entries
       && SameNumber(History(db, transactions).entries[other], db.entries[id])) ==> other == id
  }

  /** The same number once more, on an entry that no unique constraint compares. */
  function Twin(e: Entry, status: Status): Entry {
    e.(status := status, number := if status == Posted then e.number else None,
       isReversal := false, reverses := None, idempotencyKey := None, reversedBy := None)
  }

  lemma TwinIsStorable(db: Db, id: Uuid, twin: Uuid)
    requires EntriesWellFormed(db) && id in db.entries && db.entries[id].status == Posted
    requires db.entries[id].fiscalYear.None?
    ensures EntryStorable(db, twin, Twin(db.entries[id], Draft))
    ensures EntryStorable(db, twin, Twin(db.entries[id], Posted))
  {
    assert EntryRowChecks(db.entries[id]);
  }

  function TwinRows(twin: Uuid, l: Uuid, account: Uuid): seq<NewLine> {
    [NewLine(l, Line(twin, account, 100, 0, "")), NewLine(l + 1, Line(twin, account, 0, 100, ""))]
  }

  lemma TwinCommits(db: Db, id: Uuid, twin: Uuid, rows: seq<NewLine>, l: Uuid, account: Uuid)
    requires EntriesWellFormed(db) && LinesWellFormed(db) && id in db.entries && twin !in db.entries
    requires db.entries[id].status == Posted && db.entries[id].fiscalYear.None?
    requires l !in db.lines && l + 1 !in db.lines && rows == TwinRows(twin, l, account)
    requires account in db.accounts && db.accounts[account].ledger == db.entries[id].ledger
    ensures
      var booking := Booking(twin, Twin(db.entries[id], Draft), rows, Twin(db.entries[id], Posted));
      Commits(db, booking) && Transact(db, booking).entries == db.entries[twin := Twin(db.entries[id], Posted)]
  {
    hide EntriesWellFormed, LinesWellFormed, EntryStorable, Commits, Transact, Booking;
    TwinIsStorable(db, id, twin);
    PairBalances(rows);
    BookingCommitsIff(db, twin, Twin(db.entries[id], Draft), rows, Twin(db.entries[id], Posted));
  }

  lemma NumberCanRepeat(db: Db, id: Uuid) returns (transactions: seq<seq<Op>>, twin: Uuid)
    requires WellFormed(db) && id in db.entries && db.entries[id].status == Posted
    requires db.entries[id].fiscalYear.None?
    ensures twin != id && twin in History(db, transactions).entries
    ensures SameNumber(History(db, transactions).entries[twin], db.entries[id])
  {
    var entry := db.entries[id];
    twin := Fresh(db.entries.Keys);
    var l := Fresh(db.lines.Keys);
    var account := Fresh(db.accounts.Keys);
    var open := InsertAccount(account, Account(entry.ledger, ""));
    StepKeepsWellFormed(db, open);
    var wider, rows := Effect(db, open), TwinRows(twin, l, account);
    assert LinesWellFormed(wider) && EntriesWellFormed(wider);
    hide WellFormed, EntriesWellFormed, LinesWellFormed, Commits, Transact, Booking, History;
    SingleCommits(db, open);
    TwinCommits(wider, id, twin, rows, l, account);
    transactions := [[open]] + [Booking(twin, Twin(entry, Draft), rows, Twin(entry, Posted))];
    HistoryTwo(db, [open], transactions[1]);
  }

  lemma PairBalances(rows: seq<NewLine>)
    requires |rows| == 2 && rows[0].line.debit == rows[1].line.credit
    requires rows[0].line.credit == rows[1].line.debit
    ensures TotalOf(rows, DebitOf) == TotalOf(rows, CreditOf)
  {
    TotalOfPair(rows, DebitOf);
    TotalOfPair(rows, CreditOf);
  }

  lemma TotalOfPair(rows: seq<NewLine>, side: Line -> int)
    requires |rows| == 2
    ensures TotalOf(rows, side) == side(rows[0].line) + side(rows[1].line)
  {
    assert TotalOf(rows[1..][1..], side) == 0;
    assert TotalOf(rows[1..], side) == side(rows[1].line) + TotalOf(rows[1..][1..], side);
  }

  lemma AddPair(lines: map<Uuid, Line>, rows: seq<NewLine>)
    requires |rows| == 2
    ensures AddLines(lines, rows) == lines[rows[0].id := rows[0].line][rows[1].id := rows[1].line]
  {
    var one := lines[rows[0].id := rows[0].line];
    assert AddLines(one[rows[1].id := rows[1].line], rows[1..][1..]) == one[rows[1].id := rows[1].line];
    assert AddLines(one, rows[1..]) == AddLines(one[rows[1].id := rows[1].line], rows[1..][1..]);
  }

  /** Tenant, ledger, year and number of a posted entry name no other entry in any later state if
      and only if the entry has a fiscal year: null years are never compared. */
  lemma NumberStaysUniqueIff(db: Db, id: Uuid)
    requires WellFormed(db) && id in db.entries && db.entries[id].status == Posted
    ensures NumberStaysUnique(db, id) <==> db.entries[id].fiscalYear.Some?
  {
    hide WellFormed;
    if db.entries[id].fiscalYear.Some? {
      forall transactions, other | other in History(db, transactions).entries
        && SameNumber(History(db, transactions).entries[other], db.entries[id])
        ensures other == id
      {
        NumbersNameOneEntryForever(db, transactions, id, other);
      }
    } else {
      var transactions, twin := NumberCanRepeat(db, id);
    }
  }

  // ----- the example book: one ledger, two accounts, bookings of 100 from one to the other

  const LEDGER: Uuid := 1
  const BANK: Uuid := 1
  const RENT: Uuid := 2
  const SETUP := [InsertAccount(BANK, Account(LEDGER, "")), InsertAccount(RENT, Account(LEDGER, ""))]
  const BOOK := EMPTY_DB.(accounts := map[BANK := Account(LEDGER, ""), RENT := Account(LEDGER, "")])

  function Row(status: Status): Entry {
    Entry(1, LEDGER, status, None, if status == Posted then Some(1) else None, false, None, None, "", None, "")
  }

  function DebitLine(e: Uuid): Line { Line(e, BANK, 100, 0, "") }
  function CreditLine(e: Uuid): Line { Line(e, RENT, 0, 100, "") }

  /** The lines take the ids `2 * e` and `2 * e + 1`. */
  function Rows(e: Uuid): seq<NewLine> { [NewLine(2 * e, DebitLine(e)), NewLine(2 * e + 1, CreditLine(e))] }
  function Rent(e: Uuid): seq<Op> { Booking(e, Row(Draft), Rows(e), Row(Posted)) }

  function WithRent(db: Db, e: Uuid): Db {
    db.(entries := db.entries[e := Row(Posted)],
        lines := db.lines[2 * e := DebitLine(e)][2 * e + 1 := CreditLine(e)])
  }

  ghost predicate FreeFor(db: Db, e: Uuid) {
    && e !in db.entries && 2 * e !in db.lines && 2 * e + 1 !in db.lines
    && LinesWellFormed(db) && BOOK.accounts == db.accounts
    && (forall o :: o in db.entries ==> db.entries[o] == Row(Posted) || db.entries[o] == Row(Draft))
  }

  lemma RentCommits(db: Db, e: Uuid)
    requires FreeFor(db, e)
    ensures Commits(db, Rent(e)) && Transact(db, Rent(e)) == WithRent(db, e)
  {
    hide Commits, LinesWellFormed;
    var rows := Rows(e);
    PairBalances(rows);
    BookingCommitsIff(db, e, Row(Draft), rows, Row(Posted));
    AddPair(db.lines, rows);
  }

  lemma RentBalances(db: Db, e: Uuid)
    requires FreeFor(db, e)
    ensures IsBalanced(WithRent(db, e).lines, e)
  {
    var rows := Rows(e);
    AddPair(db.lines, rows);
    PairBalances(rows);
    AddedLinesBalance(db, e, rows);
  }

  lemma SetupCommits()
    ensures Commits(EMPTY_DB, SETUP) && Transact(EMPTY_DB, SETUP) == BOOK
  {
    var s0, rest := Session(EMPTY_DB, []), [InsertAccount(RENT, Account(LEDGER, ""))];
    var s1 := Step(s0, SETUP[0]).value;
    RunOne(s0, SETUP[0], rest);
    assert [SETUP[0]] + rest == SETUP;
    RunOne(s1, rest[0], []);
    assert [rest[0]] + [] == rest;
  }

  lemma HistoryThree(a: seq<Op>, b: seq<Op>, c: seq<Op>)
    ensures History(EMPTY_DB, [a] + ([b] + [c])) == Transact(Transact(Transact(EMPTY_DB, a), b), c)
  {
    HistoryOne(EMPTY_DB, a, [b] + [c]);
    HistoryTwo(Transact(EMPTY_DB, a), b, c);
  }

  /** Without a fiscal year the unique constraint is silent: two posted entries share number 1. */
  lemma NullYearNumbersRepeat()
    ensures
      var db := History(EMPTY_DB, [SETUP] + ([Rent(1)] + [Rent(2)]));
      && 1 in db.entries && 2 in db.entries
      && db.entries[1].status == Posted && SameNumber(db.entries[1], db.entries[2])
  {
    hide Commits, Transact, History, RunOps, Rent;
    HistoryThree(SETUP, Rent(1), Rent(2));
    SetupCommits();
    RentCommits(BOOK, 1);
    RentCommits(WithRent(BOOK, 1), 2);
  }

  /** Line 2 leaves entry 1 for the new draft 2. */
  const HANDOVER := [InsertEntry(2, Row(Draft)), UpdateLine(2, DebitLine(2))]

  lemma HandoverCommits()
    ensures Commits(WithRent(BOOK, 1), HANDOVER)
    ensures
      var db := Transact(WithRent(BOOK, 1), HANDOVER);
      1 in db.entries && db.entries[1].status == Posted && !IsBalanced(db.lines, 1)
  {
    var s0 := Session(WithRent(BOOK, 1), []);
    var s1 := Step(s0, HANDOVER[0]).value;
    var s2 := Step(s1, HANDOVER[1]).value;
    assert HANDOVER == [HANDOVER[0]] + [HANDOVER[1]];
    RunOne(s0, HANDOVER[0], [HANDOVER[1]]);
    RunOne(s1, HANDOVER[1], []);
    assert [HANDOVER[1]] + [] == [HANDOVER[1]];
    assert s2.pending == [Event(2, Row(Draft))];
    assert LinesOf(s2.db.lines, 1) == map[3 := CreditLine(1)];
    assert |LinesOf(s2.db.lines, 1)| == 1;
  }

  /** A line of posted entry 1 is handed over to a draft; entry 1 stays posted with one line. */
  lemma PostedEntryCanLoseALine()
    ensures
      var db := History(EMPTY_DB, [SETUP] + ([Rent(1)] + [HANDOVER]));
      1 in db.entries && db.entries[1].status == Posted && !IsBalanced(db.lines, 1)
  {
    hide Commits, Transact, History, RunOps, Rent, IsBalanced;
    HistoryThree(SETUP, Rent(1), HANDOVER);
    SetupCommits();
    RentCommits(BOOK, 1);
    HandoverCommits();
  }

  const MOVED := WithRent(BOOK, 1).(
    accounts := map[BANK := Account(LEDGER + 1, ""), RENT := Account(LEDGER, "")])

  lemma MovedTrialBalance()
    ensures Total(TrialBalance(MOVED, LEDGER, {1})) == -100
  {
    var own := Where(Booked(MOVED, {1}), AccountOf, RENT);
    var none: map<Uuid, Line> := map[];
    assert own == none[3 := CreditLine(1)];
    SumEmpty(none, NetOf);
    SumAdd(none, NetOf, 3, CreditLine(1));
    assert Balance(Booked(MOVED, {1}), RENT) == -100;
    var trial := TrialBalance(MOVED, LEDGER, {1});
    assert AccountsOf(MOVED, LEDGER) == {RENT};
    TotalRemove(trial, RENT);
    TotalZero(trial - {RENT});
    assert trial[RENT] == -100;
  }

  /** Account BANK is given to another ledger after a booking; the first ledger is 100 short. */
  lemma RelabelledAccountBreaksTheTrialBalance()
    ensures
      var db := History(EMPTY_DB, [SETUP] + ([Rent(1)] + [[UpdateAccount(BANK, Account(LEDGER + 1, ""))]]));
      && IsBalanced(db.lines, 1) && PostedIn(db, LEDGER, {1})
      && Total(TrialBalance(db, LEDGER, {1})) == -100
  {
    hide TrialBalance, IsBalanced, Commits, RunOps;
    var relabel := UpdateAccount(BANK, Account(LEDGER + 1, ""));
    HistoryThree(SETUP, Rent(1), [relabel]);
    SetupCommits();
    RentCommits(BOOK, 1);
    RentBalances(BOOK, 1);
    SingleCommits(WithRent(BOOK, 1), relabel);
    assert Effect(WithRent(BOOK, 1), relabel) == MOVED;
    MovedTrialBalance();
  }
}
