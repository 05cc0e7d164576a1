/** Validity periods under an exclusion constraint: contracts of a unit and kind, payments of a
    contract and type, payment schedules of a contract. `K` is the part compared for equality. */
module Periods {
  import opened Wrappers
  import opened Sums

  /** Days are counted; a period without an end is open. Both ends belong to the period. */
  datatype Period<K> = Period(key: K, first: int, last: Option<int>)

  predicate Covers<K>(p: Period<K>, day: int) {
    p.first <= day && (p.last.Some? ==> day <= p.last.value)
  }

  /** `CHECK (end IS NULL OR end >= start)`; a range with swapped ends cannot be built either, which
      is what refuses such a payment schedule. */
  predicate IsOrdered<K>(p: Period<K>) {
    p.last.Some? ==> p.first <= p.last.value
  }

  /** `daterange(a, '[]') && daterange(b, '[]')` of ordered periods */
  predicate Overlaps<K>(a: Period<K>, b: Period<K>) {
    (b.last.Some? ==> a.first <= b.last.value) && (a.last.Some? ==> b.first <= a.last.value)
  }

  datatype Op<I, K> = Insert(id: I, row: Period<K>) | Update(id: I, row: Period<K>) | Delete(id: I)

  predicate Fits<I(==), K(==)>(rows: map<I, Period<K>>, id: I, row: Period<K>) {
    IsOrdered(row)
    && forall other :: other in rows && other != id && rows[other].key == row.key ==> !Overlaps(rows[other], row)
  }

  predicate Accepts<I(==), K(==)>(rows: map<I, Period<K>>, op: Op<I, K>) {
    match op
    case Insert(id, row) => id !in rows && Fits(rows, id, row)
    case Update(id, row) => id in rows ==> Fits(rows, id, row)
    case Delete(_) => true
  }

  /** A statement that breaks a constraint changes nothing; an update without a row neither. */
  function Apply<I(==), K(==)>(rows: map<I, Period<K>>, op: Op<I, K>): map<I, Period<K>> {
    match op
    case Insert(id, row) => if Accepts(rows, op) then rows[id := row] else rows
    case Update(id, row) => if Accepts(rows, op) && id in rows then rows[id := row] else rows
    case Delete(id) => rows - {id}
  }

  function Run<I(==), K(==)>(rows: map<I, Period<K>>, ops: seq<Op<I, K>>): map<I, Period<K>>
    decreases |ops|
  {
    if ops == [] then rows else Run(Apply(rows, ops[0]), ops[1..])
  }

  class PeriodTable<I(==), K(==)> {
    var rows: map<I, Period<K>>

    constructor ()
      ensures rows == map[]
    {
      rows := map[];
    }

    /** The constraint check looks at the other rows one by one. */
    method Check(id: I, row: Period<K>) returns (ok: bool)
      ensures ok <==> Fits(rows, id, row)
    {
      if !IsOrdered(row) {
        return false;
      }
      var left := rows.Keys;
      while left != {}
        invariant left <= rows.Keys
        invariant forall o :: o in rows && o !in left && o != id && rows[o].key == row.key ==> !Overlaps(rows[o], row)
        decreases left
      {
        var o :| o in left;
        if o != id && rows[o].key == row.key && Overlaps(rows[o], row) {
          return false;
        }
        left := left - {o};
      }
      return true;
    }

    method Execute(op: Op<I, K>) returns (ok: bool)
      modifies this
      ensures ok <==> Accepts(old(rows), op)
      ensures rows == Apply(old(rows), op)
    {
      match op
      case Insert(id, row) =>
        ok := Check(id, row);
        ok := ok && id !in rows;
        if ok {
          rows := rows[id := row];
        }
      case Update(id, row) =>
        ok := true;
        if id in rows {
          ok := Check(id, row);
          if ok {
            rows := rows[id := row];
          }
        }
      case Delete(id) =>
        ok := true;
        rows := rows - {id};
    }
  }

  // ----- what the constraint means

  /** Ordered periods overlap, as the constraint compares them, exactly when they share a day. */
  lemma OverlapIsSharedDay<K>(a: Period<K>, b: Period<K>)
    requires IsOrdered(a) && IsOrdered(b)
    ensures Overlaps(a, b) <==> exists day :: Covers(a, day) && Covers(b, day)
  {
    if Overlaps(a, b) {
      var day := if a.first < b.first then b.first else a.first;
      assert Covers(a, day) && Covers(b, day);
    }
  }

  ghost predicate IsExclusive<I, K>(rows: map<I, Period<K>>) {
    && (forall i :: i in rows ==> IsOrdered(rows[i]))
    && (forall i, j :: i in rows && j in rows && i != j && rows[i].key == rows[j].key ==> !Overlaps(rows[i], rows[j]))
  }

  lemma {:induction false} RunIsExclusive<I, K>(rows: map<I, Period<K>>, ops: seq<Op<I, K>>)
    requires IsExclusive(rows)
    ensures IsExclusive(Run(rows, ops))
    decreases |ops|
  {
    if ops != [] {
      RunIsExclusive(Apply(rows, ops[0]), ops[1..]);
    }
  }

  /** A new period is refused exactly when its ends are swapped or a day of it is taken. */
  lemma InsertAcceptedIff<I, K>(rows: map<I, Period<K>>, id: I, row: Period<K>)
    requires IsExclusive(rows) && id !in rows
    ensures Accepts(rows, Insert(id, row)) <==>
      IsOrdered(row) && forall day :: Covers(row, day) ==> !IsCovered(Of(rows, row.key), day)
  {
    if IsOrdered(row) {
      forall other | other in rows
        ensures Overlaps(rows[other], row) <==> exists day :: Covers(rows[other], day) && Covers(row, day)
      {
        OverlapIsSharedDay(rows[other], row);
      }
      if other :| other in rows && rows[other].key == row.key && Overlaps(rows[other], row) {
        var day :| Covers(rows[other], day) && Covers(row, day);
        assert other in Of(rows, row.key);
        assert IsCovered(Of(rows, row.key), day);
      }
    }
  }

  ghost function Of<I, K>(rows: map<I, Period<K>>, key: K): map<I, Period<K>> {
    map i | i in rows && rows[i].key == key :: rows[i]
  }

  /** An update moves a period exactly when its new days are free of the other periods of the key. */
  lemma UpdateAcceptedIff<I, K>(rows: map<I, Period<K>>, id: I, row: Period<K>)
    requires IsExclusive(rows) && id in rows
    ensures Accepts(rows, Update(id, row)) <==>
      IsOrdered(row) && forall day :: Covers(row, day) ==> !IsCovered(Of(rows - {id}, row.key), day)
  {
    var others := rows - {id};
    InsertAcceptedIff(others, id, row);
    assert forall o :: o in others <==> o in rows && o != id;
  }

  /** The same said of the dates themselves: both ends count, and an open end is later than any day. */
  lemma FitsOutright<I, K>(rows: map<I, Period<K>>, id: I, row: Period<K>)
    ensures Fits(rows, id, row) <==>
      && (row.last == None || row.first <= row.last.value)
      && forall o :: o in rows && o != id && rows[o].key == row.key ==>
           (row.last != None && row.last.value < rows[o].first)
           || (rows[o].last != None && rows[o].last.value < row.first)
  {
  }

  // ----- what a statement stores

  lemma CoveredByAnother<I, K>(rows: map<I, Period<K>>, id: I, key: K, day: int)
    requires IsExclusive(rows)
    ensures IsCovered(Of(rows - {id}, key), day) <==>
      IsCovered(Of(rows, key), day) && !(id in rows && rows[id].key == key && Covers(rows[id], day))
  {
    if i :| i in Of(rows, key) && Covers(rows[i], day) && i != id {
      assert i in Of(rows - {id}, key);
      if id in rows && rows[id].key == key && Covers(rows[id], day) {
        OverlapIsSharedDay(rows[i], rows[id]);
      }
    }
    if i :| i in Of(rows - {id}, key) && Covers(rows[i], day) {
      assert i in Of(rows, key);
    }
  }

  lemma CoveredWith<I, K>(rows: map<I, Period<K>>, id: I, row: Period<K>, key: K, day: int)
    ensures IsCovered(Of(rows[id := row], key), day) <==>
      (key == row.key && row.first <= day && (row.last == None || day <= row.last.value))
      || IsCovered(Of(rows - {id}, key), day)
  {
    var after := rows[id := row];
    if key == row.key && Covers(row, day) {
      assert id in Of(after, key);
    }
    forall i | i in Of(rows - {id}, key)
      ensures i in Of(after, key)
    {
    }
    if i :| i in Of(after, key) && Covers(after[i], day) && i != id {
      assert i in Of(rows - {id}, key);
    }
  }

  /** An accepted insert takes the days of its row and leaves every other day as it was. */
  lemma InsertTakesItsDays<I, K>(rows: map<I, Period<K>>, id: I, row: Period<K>, key: K, day: int)
    requires IsExclusive(rows) && Accepts(rows, Insert(id, row))
    ensures IsCovered(Of(Apply(rows, Insert(id, row)), key), day) <==>
      (key == row.key && row.first <= day && (row.last == None || day <= row.last.value))
      || IsCovered(Of(rows, key), day)
  {
    CoveredWith(rows, id, row, key, day);
    assert rows - {id} == rows;
  }

  /** An accepted update frees the days of the old row, takes those of the new one, and leaves
      every other day as it was. */
  lemma UpdateMovesItsDays<I, K>(rows: map<I, Period<K>>, id: I, row: Period<K>, key: K, day: int)
    requires IsExclusive(rows) && id in rows && Accepts(rows, Update(id, row))
    ensures IsCovered(Of(Apply(rows, Update(id, row)), key), day) <==>
      || (key == row.key && row.first <= day && (row.last == None || day <= row.last.value))
      || (IsCovered(Of(rows, key), day) && !(rows[id].key == key && Covers(rows[id], day)))
  {
    CoveredWith(rows, id, row, key, day);
    CoveredByAnother(rows, id, key, day);
  }

  /** A delete frees the days of its row and no other day. */
  lemma DeleteFreesItsDays<I, K>(rows: map<I, Period<K>>, id: I, key: K, day: int)
    requires IsExclusive(rows)
    ensures Accepts(rows, Delete(id))
    ensures IsCovered(Of(Apply(rows, Delete(id)), key), day) <==>
      IsCovered(Of(rows, key), day) && !(id in rows && rows[id].key == key && Covers(rows[id], day))
  {
    CoveredByAnother(rows, id, key, day);
  }

  /** Row by row: a refused statement, and an update that meets no row, change nothing; otherwise
      the row of the statement is stored or gone and every other row stays. */
  lemma RowsAfter<I, K>(rows: map<I, Period<K>>, op: Op<I, K>, i: I)
    ensures !Accepts(rows, op) ==> Apply(rows, op) == rows
    ensures op.Update? && op.id !in rows ==> Accepts(rows, op) && Apply(rows, op) == rows
    ensures i != op.id ==> (i in Apply(rows, op) <==> i in rows) && (i in rows ==> Apply(rows, op)[i] == rows[i])
    ensures Accepts(rows, op) && (op.Insert? || (op.Update? && op.id in rows)) ==>
      op.id in Apply(rows, op) && Apply(rows, op)[op.id] == op.row
    ensures op.Delete? ==> op.id !in Apply(rows, op)
    ensures op.Insert? && op.id in rows ==> !Accepts(rows, op)
  {
  }

  /** After any run, every day belongs to at most one period of a key. */
  lemma OneOwnerPerDay<I, K>(ops: seq<Op<I, K>>, key: K, day: int, i: I, j: I)
    requires
      var rows := Of(Run(map[], ops), key);
      i in rows && j in rows && Covers(rows[i], day) && Covers(rows[j], day)
    ensures i == j
  {
    RunIsExclusive(map[], ops);
    var rows := Run(map[], ops);
    if i != j {
      OverlapIsSharedDay(rows[i], rows[j]);
    }
  }

  // ----- counting days

  /** The days of the period in the `n` days from `from` on. */
  function DaysIn<K>(p: Period<K>, from: int, n: nat): nat {
    var first := if p.first < from then from else p.first;
    var last := if p.last.Some? && p.last.value < from + n - 1 then p.last.value else from + n - 1;
    if first <= last then last - first + 1 else 0
  }

  ghost function DaysPerRow<K, I>(rows: map<I, Period<K>>, from: int, n: nat): map<I, int> {
    map i | i in rows :: DaysIn(rows[i], from, n)
  }

  ghost function TotalDays<K, I>(rows: map<I, Period<K>>, from: int, n: nat): int {
    Total(DaysPerRow(rows, from, n))
  }

  ghost predicate IsCovered<K, I>(rows: map<I, Period<K>>, day: int) {
    exists i :: i in rows && Covers(rows[i], day)
  }

  /** The number of the days that some period covers. */
  ghost function CoveredDays<K, I>(rows: map<I, Period<K>>, from: int, n: nat): nat {
    if n == 0 then 0 else CoveredDays(rows, from, n - 1) + (if IsCovered(rows, from + n - 1) then 1 else 0)
  }

  lemma {:induction false} TotalPlus<I>(a: map<I, int>, b: map<I, int>, c: map<I, int>)
    requires a.Keys == b.Keys == c.Keys && forall i :: i in a ==> c[i] == a[i] + b[i]
    ensures Total(c) == Total(a) + Total(b)
    decreases |a.Keys|
  {
    if a.Keys == {} {
      TotalZero(a);
      TotalZero(b);
      TotalZero(c);
    } else {
      var i :| i in a.Keys;
      TotalRemove(a, i);
      TotalRemove(b, i);
      TotalRemove(c, i);
      assert (a - {i}).Keys == a.Keys - {i};
      TotalPlus(a - {i}, b - {i}, c - {i});
    }
  }

  ghost function Marks<K, I>(rows: map<I, Period<K>>, day: int): map<I, int> {
    map i | i in rows :: if Covers(rows[i], day) then 1 else 0
  }

  lemma MarksOfOne<K, I>(rows: map<I, Period<K>>, day: int)
    requires OneOwner(rows, day)
    ensures Total(Marks(rows, day)) == if IsCovered(rows, day) then 1 else 0
  {
    var marks := Marks(rows, day);
    if IsCovered(rows, day) {
      var i :| i in rows && Covers(rows[i], day);
      TotalRemove(marks, i);
      TotalZero(marks - {i});
    } else {
      TotalZero(marks);
    }
  }

  lemma OneMoreDay<K>(p: Period<K>, from: int, n: nat)
    requires IsOrdered(p) && n > 0
    ensures DaysIn(p, from, n) == DaysIn(p, from, n - 1) + (if Covers(p, from + n - 1) then 1 else 0)
  {
  }

  lemma OneMoreDayInTotal<K, I>(rows: map<I, Period<K>>, from: int, n: nat)
    requires (forall i :: i in rows ==> IsOrdered(rows[i])) && n > 0
    ensures TotalDays(rows, from, n) == TotalDays(rows, from, n - 1) + Total(Marks(rows, from + n - 1))
  {
    hide DaysIn;
    var before, marks, now := DaysPerRow(rows, from, n - 1), Marks(rows, from + n - 1), DaysPerRow(rows, from, n);
    forall i | i in rows
      ensures now[i] == before[i] + marks[i]
    {
      OneMoreDay(rows[i], from, n);
    }
    TotalPlus(before, marks, now);
  }

  ghost predicate OneOwner<K, I>(rows: map<I, Period<K>>, day: int) {
    forall i, j :: i in rows && j in rows && Covers(rows[i], day) && Covers(rows[j], day) ==> i == j
  }

  lemma NoDays<K, I>(rows: map<I, Period<K>>, from: int)
    ensures TotalDays(rows, from, 0) == 0
  {
    TotalZero(DaysPerRow(rows, from, 0));
  }

  lemma {:induction false} TotalIsCovered<K, I>(rows: map<I, Period<K>>, from: int, n: nat)
    requires forall i :: i in rows ==> IsOrdered(rows[i])
    requires forall day :: OneOwner(rows, day)
    ensures TotalDays(rows, from, n) == CoveredDays(rows, from, n) <= n
    decreases n
  {
    hide DaysPerRow, Marks, IsCovered;
    if n == 0 {
      NoDays(rows, from);
    } else {
      TotalIsCovered(rows, from, n - 1);
      OneMoreDayInTotal(rows, from, n);
      assert OneOwner(rows, from + n - 1);
      MarksOfOne(rows, from + n - 1);
    }
  }

  /** After any run, the covered days of all periods of a key in any window add up to the number
      of covered days, so never to more than the length of the window; open ends included. */
  lemma DaysAreCountedOnce<I, K>(ops: seq<Op<I, K>>, key: K, from: int, n: nat)
    ensures
      var rows := Of(Run(map[], ops), key);
      TotalDays(rows, from, n) == CoveredDays(rows, from, n) <= n
  {
    var none: map<I, Period<K>> := map[];
    RunIsExclusive(none, ops);
    var rows := Of(Run(none, ops), key);
    forall day
      ensures OneOwner(rows, day)
    {
      forall i, j | i in rows && j in rows && Covers(rows[i], day) && Covers(rows[j], day)
        ensures i == j
      {
        OneOwnerPerDay(ops, key, day, i, j);
      }
    }
    TotalIsCovered(rows, from, n);
  }
}
