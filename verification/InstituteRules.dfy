/** What the merge promises: a second run changes nothing, URLs are accounted for, the file survives. */
module InstituteRules {
  import opened Wrappers
  import opened InstituteList
  import opened InstituteMerge
  import opened InstituteSource

  // ----- idempotence

  lemma MergedRowTwice(row: Row, dk: seq<Dk>, s: Settings)
    ensures MergedRow(MergedRow(row, dk, s), dk, s) == MergedRow(row, dk, s)
  {
  }

  lemma NewRowIsMerged(dk: seq<Dk>, d: Dk, s: Settings)
    requires UniqueKeys(dk) && d in dk
    ensures MergedRow(NewRow(d), dk, s) == NewRow(d)
  {
  }

  lemma {:induction false} AddedAreNew(rows: seq<Row>, dk: seq<Dk>, r: Row)
    requires r in Added(rows, dk)
    ensures exists d :: d in dk && r == NewRow(d) && !Names(rows, d.blz)
    decreases |dk|
  {
    if !Names(rows, dk[0].blz) && r == NewRow(dk[0]) {
    } else {
      AddedAreNew(rows, dk[1..], r);
    }
  }

  lemma {:induction false} AddedNamesAll(rows: seq<Row>, dk: seq<Dk>, d: Dk)
    requires d in dk
    ensures Names(rows, d.blz) || Names(Added(rows, dk), d.blz)
    decreases |dk|
  {
    var rest := Added(rows, dk[1..]);
    if d == dk[0] {
      if !Names(rows, d.blz) {
        assert NewRow(d) in Added(rows, dk);
      }
    } else {
      AddedNamesAll(rows, dk[1..], d);
      if Names(rest, d.blz) {
        var r :| r in rest && r.blz == d.blz;
        assert r in Added(rows, dk);
      }
    }
  }

  lemma {:induction false} NothingToAdd(rows: seq<Row>, dk: seq<Dk>)
    requires forall d :: d in dk ==> Names(rows, d.blz)
    ensures Added(rows, dk) == []
    decreases |dk|
  {
    if dk != [] {
      assert dk[0] in dk;
      NothingToAdd(rows, dk[1..]);
    }
  }

  lemma InSorted(rows: seq<Row>, r: Row)
    ensures r in SortByBlz(rows) <==> r in rows
  {
    SortIsStable(rows, r.blz);
    assert r in multiset(rows) <==> r in rows;
    assert r in multiset(SortByBlz(rows)) <==> r in SortByBlz(rows);
  }

  /** A row of the merged list is an old row, merged, or a new row. */
  lemma MergedElement(rows: seq<Row>, dk: seq<Dk>, s: Settings, r: Row)
    requires r in Merged(rows, dk, s)
    ensures || (exists row :: row in rows && r == MergedRow(row, dk, s))
            || (exists d :: d in dk && r == NewRow(d) && !Names(rows, d.blz))
  {
    InSorted(MergedRows(rows, dk, s) + Added(rows, dk), r);
    if r in MergedRows(rows, dk, s) {
      var i :| 0 <= i < |rows| && MergedRows(rows, dk, s)[i] == r;
      assert rows[i] in rows;
    } else {
      AddedAreNew(rows, dk, r);
    }
  }

  lemma EveryEntryIsNamed(rows: seq<Row>, dk: seq<Dk>, s: Settings, d: Dk)
    requires d in dk
    ensures Names(Merged(rows, dk, s), d.blz)
  {
    var all := MergedRows(rows, dk, s) + Added(rows, dk);
    AddedNamesAll(rows, dk, d);
    if Names(rows, d.blz) {
      var i :| 0 <= i < |rows| && rows[i].blz == d.blz;
      assert MergedRows(rows, dk, s)[i] in all && MergedRows(rows, dk, s)[i].blz == d.blz;
      InSorted(all, MergedRows(rows, dk, s)[i]);
    } else {
      var r :| r in Added(rows, dk) && r.blz == d.blz;
      assert r in all;
      InSorted(all, r);
    }
  }

  lemma MergedElementIsFixed(rows: seq<Row>, dk: seq<Dk>, s: Settings, r: Row)
    requires UniqueKeys(dk) && r in Merged(rows, dk, s)
    ensures MergedRow(r, dk, s) == r
  {
    hide MergedRow, NewRow, Names;
    MergedElement(rows, dk, s, r);
    if row :| row in rows && r == MergedRow(row, dk, s) {
      MergedRowTwice(row, dk, s);
    } else {
      var d :| d in dk && r == NewRow(d);
      NewRowIsMerged(dk, d, s);
    }
  }

  lemma FixedRowsMergeToThemselves(once: seq<Row>, dk: seq<Dk>, s: Settings)
    requires IsSorted(once) && (forall r :: r in once ==> MergedRow(r, dk, s) == r)
    requires forall d :: d in dk ==> Names(once, d.blz)
    ensures Merged(once, dk, s) == once
  {
    hide MergedRow, Names;
    forall i | 0 <= i < |once|
      ensures MergedRows(once, dk, s)[i] == once[i]
    {
      assert once[i] in once;
    }
    assert MergedRows(once, dk, s) == once;
    NothingToAdd(once, dk);
    assert once + [] == once;
    SortOfSorted(once);
  }

  /** Merging the same DK list again returns the same rows in the same order, whatever the settings. */
  lemma MergeIsIdempotent(rows: seq<Row>, dk: seq<Dk>, s: Settings)
    requires UniqueKeys(dk)
    ensures Merged(Merged(rows, dk, s), dk, s) == Merged(rows, dk, s)
  {
    hide MergedRow, MergedRows, Added, Names, IsSorted, SortByBlz;
    var once := Merged(rows, dk, s);
    forall r | r in once
      ensures MergedRow(r, dk, s) == r
    {
      MergedElementIsFixed(rows, dk, s, r);
    }
    forall d | d in dk
      ensures Names(once, d.blz)
    {
      EveryEntryIsNamed(rows, dk, s, d);
    }
    SortIsStable(MergedRows(rows, dk, s) + Added(rows, dk), "");
    FixedRowsMergeToThemselves(once, dk, s);
  }

  // ----- the account of URLs

  predicate GainsUrl(row: Row, dk: seq<Dk>, s: Settings) {
    !HasUrl(row) && HasUrl(MergedRow(row, dk, s))
  }

  function Gained(rows: seq<Row>, dk: seq<Dk>, s: Settings): nat {
    if rows == [] then 0 else (if GainsUrl(rows[0], dk, s) then 1 else 0) + Gained(rows[1..], dk, s)
  }

  lemma {:induction false} ConnectableOfInsert(r: Row, rows: seq<Row>)
    ensures Connectable(Insert(r, rows)) == (if HasUrl(r) then 1 else 0) + Connectable(rows)
    decreases |rows|
  {
    if rows != [] && !Leq(r.blz, rows[0].blz) {
      ConnectableOfInsert(r, rows[1..]);
    }
  }

  lemma {:induction false} ConnectableOfSorted(rows: seq<Row>)
    ensures Connectable(SortByBlz(rows)) == Connectable(rows)
    decreases |rows|
  {
    if rows != [] {
      ConnectableOfSorted(rows[1..]);
      ConnectableOfInsert(rows[0], SortByBlz(rows[1..]));
    }
  }

  lemma {:induction false} ConnectableOfBoth(a: seq<Row>, b: seq<Row>)
    ensures Connectable(a + b) == Connectable(a) + Connectable(b)
    decreases |a|
  {
    if a == [] {
      assert a + b == b;
    } else {
      assert (a + b)[1..] == a[1..] + b;
      ConnectableOfBoth(a[1..], b);
    }
  }

  lemma UrlOfMergedRow(row: Row, dk: seq<Dk>, s: Settings)
    ensures HasUrl(row) ==> (HasUrl(MergedRow(row, dk, s)) <==> !LosesUrl(row, dk, s))
    ensures LosesUrl(row, dk, s) ==> HasUrl(row)
  {
  }

  lemma {:induction false} ConnectableOfMergedRows(rows: seq<Row>, dk: seq<Dk>, s: Settings)
    ensures Connectable(MergedRows(rows, dk, s)) + Lost(rows, dk, s) == Connectable(rows) + Gained(rows, dk, s)
    decreases |rows|
  {
    hide MergedRow, LosesUrl;
    if rows != [] {
      assert MergedRows(rows, dk, s)[1..] == MergedRows(rows[1..], dk, s);
      ConnectableOfMergedRows(rows[1..], dk, s);
      UrlOfMergedRow(rows[0], dk, s);
    }
  }

  /** Every connectable row after the merge is accounted for. */
  lemma UrlAccount(rows: seq<Row>, dk: seq<Dk>, s: Settings)
    ensures Connectable(Merged(rows, dk, s)) + Lost(rows, dk, s)
         == Connectable(rows) + Gained(rows, dk, s) + Connectable(Added(rows, dk))
  {
    ConnectableOfSorted(MergedRows(rows, dk, s) + Added(rows, dk));
    ConnectableOfBoth(MergedRows(rows, dk, s), Added(rows, dk));
    ConnectableOfMergedRows(rows, dk, s);
  }

  lemma {:induction false} NothingLostWithoutClear(rows: seq<Row>, dk: seq<Dk>, s: Settings)
    requires !s.allowClear
    ensures Lost(rows, dk, s) == 0
    decreases |rows|
  {
    if rows != [] {
      NothingLostWithoutClear(rows[1..], dk, s);
    }
  }

  /** A merge that is not refused keeps nine tenths of the connectable rows; without clearing it
      is never refused for lost rows and keeps them all. */
  lemma UrlsAreNotLostSilently(rows: seq<Row>, dk: seq<Dk>, s: Settings)
    ensures !TooManyLost(Connectable(rows), Lost(rows, dk, s)) ==>
      10 * Connectable(Merged(rows, dk, s)) >= 9 * Connectable(rows)
    ensures !s.allowClear ==>
      !TooManyLost(Connectable(rows), Lost(rows, dk, s))
      && Connectable(Merged(rows, dk, s)) >= Connectable(rows)
  {
    UrlAccount(rows, dk, s);
    if !s.allowClear {
      NothingLostWithoutClear(rows, dk, s);
    }
  }

  /** Master data of an existing row survive, and its URL is its own or that of its DK entry. */
  lemma MergedRowKeepsMasterData(row: Row, dk: seq<Dk>, s: Settings)
    ensures
      var merged := MergedRow(row, dk, s);
      && merged.blz == row.blz && merged.name == row.name && merged.city == row.city && merged.check == row.check
      && (row.bic != "" ==> merged.bic == row.bic)
      && (merged.url == row.url || (exists d :: d in dk && d.entry.url == merged.url))
      && (Source(row, dk, s).None? ==> merged == row)
      && (merged == row || merged.raw.None?)
  {
  }

  /** In the whole merged list, added rows included, a URL stood in the old row of the same bank
      code, or it is an https address of the DK list. */
  lemma EveryUrlIsOldOrHttps(rows: seq<Row>, table: seq<Cells>, col: Columns, s: Settings, r: Row)
    requires r in Merged(rows, DkList(table, col), s) && HasUrl(r)
    ensures || (exists row :: row in rows && row.blz == r.blz && row.url == r.url)
            || (IsHttps(r.url) && exists d :: d in DkList(table, col) && d.entry.url == r.url)
  {
    hide MergedRow, DkList, IsHttps;
    var dk := DkList(table, col);
    DkListIsClean(table, col);
    MergedElement(rows, dk, s, r);
    if row :| row in rows && r == MergedRow(row, dk, s) {
      MergedRowKeepsMasterData(row, dk, s);
      if r.url != row.url {
        var d :| d in dk && d.entry.url == r.url;
        assert IsCleanEntry(d);
      }
    } else {
      var d :| d in dk && r == NewRow(d);
      assert IsCleanEntry(d);
    }
  }

  // ----- the merged file is read back

  /** Every BIC that the merge takes from the list is a field: those of new rows, and those that
      fill an empty BIC. */
  predicate TakenBicsAreFields(rows: seq<Row>, dk: seq<Dk>, s: Settings) {
    && (forall row :: row in rows && row.bic == "" && Source(row, dk, s).Some? ==>
          IsField(Source(row, dk, s).value.bic))
    && (forall d :: d in dk && !Names(rows, d.blz) ==> IsField(d.entry.bic))
  }

  lemma SourceIsClean(row: Row, dk: seq<Dk>, s: Settings)
    requires IsCleanList(dk) && Source(row, dk, s).Some?
    ensures exists d :: d in dk && d.entry == Source(row, dk, s).value && IsCleanEntry(d)
  {
  }

  lemma UpdatedIsWritable(row: Row, d: Dk, allowClear: bool)
    requires IsWritable(row) && IsCleanEntry(d) && (row.bic == "" ==> IsField(d.entry.bic))
    ensures IsWritable(Updated(row, d.entry, allowClear))
  {
    hide IsHttps, IsField, ParseLine;
  }

  lemma NewRowIsWritable(d: Dk)
    requires IsCleanEntry(d) && IsField(d.entry.bic)
    ensures IsWritable(NewRow(d))
  {
    hide IsHttps;
  }

  lemma MergedIsWritable(rows: seq<Row>, dk: seq<Dk>, s: Settings, r: Row)
    requires IsCleanList(dk) && (forall row :: row in rows ==> IsWritable(row))
    requires TakenBicsAreFields(rows, dk, s) && r in Merged(rows, dk, s)
    ensures IsWritable(r)
  {
    hide IsWritable, IsCleanEntry, Updated, NewRow, IsField;
    MergedElement(rows, dk, s, r);
    if row :| row in rows && r == MergedRow(row, dk, s) {
      if Source(row, dk, s).Some? {
        SourceIsClean(row, dk, s);
        var d :| d in dk && d.entry == Source(row, dk, s).value && IsCleanEntry(d);
        UpdatedIsWritable(row, d, s.allowClear);
      }
    } else {
      var d :| d in dk && r == NewRow(d) && !Names(rows, d.blz);
      NewRowIsWritable(d);
    }
  }

  lemma TakenBicOfRow(row: Row, dk: seq<Dk>, s: Settings)
    requires row.bic == "" && Source(row, dk, s).Some?
    ensures MergedRow(row, dk, s).bic == Source(row, dk, s).value.bic
  {
  }

  lemma ReadBackHasBics(rows: seq<Row>, dk: seq<Dk>, s: Settings)
    requires forall r :: r in Merged(rows, dk, s) ==> IsField(r.bic)
    ensures TakenBicsAreFields(rows, dk, s)
  {
    hide MergedRow, Source, IsField, Names;
    var all := MergedRows(rows, dk, s) + Added(rows, dk);
    forall row | row in rows && row.bic == "" && Source(row, dk, s).Some?
      ensures IsField(Source(row, dk, s).value.bic)
    {
      var i :| 0 <= i < |rows| && rows[i] == row;
      assert MergedRows(rows, dk, s)[i] in all;
      InSorted(all, MergedRow(row, dk, s));
      TakenBicOfRow(row, dk, s);
    }
    forall d | d in dk && !Names(rows, d.blz)
      ensures IsField(d.entry.bic)
    {
      NewEntryIsAdded(rows, dk, d);
      assert NewRow(d) in all;
      InSorted(all, NewRow(d));
    }
  }

  lemma {:induction false} NewEntryIsAdded(rows: seq<Row>, dk: seq<Dk>, d: Dk)
    requires d in dk && !Names(rows, d.blz)
    ensures NewRow(d) in Added(rows, dk)
    decreases |dk|
  {
    if d != dk[0] {
      NewEntryIsAdded(rows, dk[1..], d);
    }
  }

  lemma AsReadHasFields(rows: seq<Row>, r: Row)
    requires ReadText(WriteText(rows)) == AsRead(rows) && r in rows
    ensures IsField(r.bic)
  {
    hide ReadText, WriteText, IsField;
    ReadRowsAreWritable(WriteText(rows));
    var i :| 0 <= i < |rows| && rows[i] == r;
    assert AsRead(rows)[i] in AsRead(rows);
    assert IsWritable(AsRead(rows)[i]);
    assert AsRead(rows)[i].Columns()[2] == r.bic;
  }

  /** Reading the list, merging, writing and reading again gives the merged rows, the same fields
      in the same order and untouched rows on their very lines, if and only if every BIC that the
      merge takes from the DK list is a field: the one column the script does not clean. */
  lemma MergedFileIsReadBackIff(text: string, dk: seq<Dk>, s: Settings)
    requires IsCleanList(dk)
    ensures
      var merged := Merged(ReadText(text), dk, s);
      ReadText(WriteText(merged)) == AsRead(merged) <==> TakenBicsAreFields(ReadText(text), dk, s)
  {
    hide Merged, IsWritable, IsField, IsCleanEntry, TakenBicsAreFields, ReadText, WriteText, AsRead;
    var rows := ReadText(text);
    var merged := Merged(rows, dk, s);
    if TakenBicsAreFields(rows, dk, s) {
      ReadRowsAreWritable(text);
      forall r | r in merged
        ensures IsWritable(r)
      {
        MergedIsWritable(rows, dk, s, r);
      }
      WrittenRowsAreReadBack(merged);
    }
    if ReadText(WriteText(merged)) == AsRead(merged) {
      forall r | r in merged
        ensures IsField(r.bic)
      {
        AsReadHasFields(merged, r);
      }
      ReadBackHasBics(rows, dk, s);
    }
  }

  // ----- a second run over the written file

  lemma FixedOnAnyLine(row: Row, raw: Option<string>, dk: seq<Dk>, s: Settings)
    requires MergedRow(row, dk, s) == row
    ensures MergedRow(row.(raw := raw), dk, s) == row.(raw := raw)
  {
  }

  lemma AsReadKeepsNames(rows: seq<Row>, blz: string)
    requires Names(rows, blz)
    ensures Names(AsRead(rows), blz)
  {
    var i :| 0 <= i < |rows| && rows[i].blz == blz;
    assert AsRead(rows)[i] in AsRead(rows);
  }

  lemma {:induction false} AsReadIsTheSameText(rows: seq<Row>)
    ensures WriteText(AsRead(rows)) == WriteText(rows)
    decreases |rows|
  {
    if rows != [] {
      assert AsRead(rows)[1..] == AsRead(rows[1..]);
      AsReadIsTheSameText(rows[1..]);
    }
  }

  lemma AsReadIsFixed(rows: seq<Row>, dk: seq<Dk>, s: Settings)
    requires UniqueKeys(dk)
    ensures var once := AsRead(Merged(rows, dk, s)); Merged(once, dk, s) == once
  {
    hide MergedRow, MergedRows, Added, Names, SortByBlz;
    var merged := Merged(rows, dk, s);
    var once := AsRead(merged);
    forall r | r in once
      ensures MergedRow(r, dk, s) == r
    {
      var i :| 0 <= i < |once| && once[i] == r;
      assert merged[i] in merged;
      MergedElementIsFixed(rows, dk, s, merged[i]);
      FixedOnAnyLine(merged[i], r.raw, dk, s);
    }
    forall d | d in dk
      ensures Names(once, d.blz)
    {
      EveryEntryIsNamed(rows, dk, s, d);
      AsReadKeepsNames(merged, d.blz);
    }
    SortIsStable(MergedRows(rows, dk, s) + Added(rows, dk), "");
    FixedRowsMergeToThemselves(once, dk, s);
  }

  /** A second run over the written file leaves the rows and the file as they are. */
  lemma SecondRunChangesNothing(text: string, table: seq<Cells>, col: Columns, s: Settings)
    requires TakenBicsAreFields(ReadText(text), DkList(table, col), s)
    ensures
      var dk := DkList(table, col);
      var file := WriteText(Merged(ReadText(text), dk, s));
      && Merged(ReadText(file), dk, s) == ReadText(file)
      && WriteText(Merged(ReadText(file), dk, s)) == file
  {
    hide Merged, DkList, TakenBicsAreFields, ReadText, WriteText, AsRead;
    var dk := DkList(table, col);
    DkListIsClean(table, col);
    MergedFileIsReadBackIff(text, dk, s);
    AsReadIsFixed(ReadText(text), dk, s);
    AsReadIsTheSameText(Merged(ReadText(text), dk, s));
  }
}
