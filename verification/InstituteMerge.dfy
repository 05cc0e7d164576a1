/** Merging the institute list of the DK into the rows of the file. */
module InstituteMerge {
  import opened Wrappers
  import opened Text
  import opened InstituteList

  datatype DkEntry = DkEntry(
    name: string, city: string, bic: string, domain: string, url: string, hbci: string, fints: string)

  /** The DK dictionary in insertion order, one entry per bank code. */
  datatype Dk = Dk(blz: string, entry: DkEntry)

  predicate UniqueKeys(dk: seq<Dk>) {
    forall i, j :: 0 <= i < j < |dk| ==> dk[i].blz != dk[j].blz
  }

  function Find(dk: seq<Dk>, blz: string): (e: Option<DkEntry>)
    ensures e.Some? ==> Dk(blz, e.value) in dk
    ensures e.None? ==> forall d :: d in dk ==> d.blz != blz
  {
    if dk == [] then None else if dk[0].blz == blz then Some(dk[0].entry) else Find(dk[1..], blz)
  }

  predicate IsUpper(c: char) { 'A' <= c <= 'Z' }
  predicate IsUpperOrDigit(c: char) { IsUpper(c) || IsDigit(c) }

  predicate IsBic(s: string) {
    (|s| == 8 || |s| == 11) && All(s[..6], IsUpper) && All(s[6..], IsUpperOrDigit)
  }

  /** `by_bic`: the first entry that names the BIC. */
  function FindBic(dk: seq<Dk>, bic: string): (e: Option<DkEntry>)
    ensures e.Some? ==> IsBic(bic) && exists d :: d in dk && d.entry == e.value && e.value.bic == bic
  {
    if dk == [] then None
    else if dk[0].entry.bic == bic && IsBic(bic) then Some(dk[0].entry)
    else FindBic(dk[1..], bic)
  }

  datatype Settings = Settings(matchBic: bool, allowClear: bool)

  function Source(row: Row, dk: seq<Dk>, s: Settings): Option<DkEntry> {
    var own := Find(dk, row.blz);
    if own.None? && s.matchBic then FindBic(dk, row.bic) else own
  }

  predicate LosesUrl(row: Row, dk: seq<Dk>, s: Settings) {
    var source := Source(row, dk, s);
    source.Some? && row.url != "" && source.value.url == "" && s.allowClear
  }

  /** An existing row keeps its master data and takes the address from the DK entry, unless that
      would remove its URL and clearing is not allowed; a row that does not change stays itself. */
  function Updated(row: Row, e: DkEntry, allowClear: bool): Row {
    var bic := if row.bic != "" then row.bic else e.bic;
    var merged := if row.url != "" && e.url == "" && !allowClear
               then row.(bic := bic, raw := None)
               else Row(row.blz, row.name, row.city, bic, row.check, e.domain, e.url, e.hbci, e.fints, None);
    if SameFields(merged, row) then row else merged
  }

  function MergedRow(row: Row, dk: seq<Dk>, s: Settings): Row {
    var source := Source(row, dk, s);
    if source.None? then row else Updated(row, source.value, s.allowClear)
  }

  function MergedRows(rows: seq<Row>, dk: seq<Dk>, s: Settings): seq<Row> {
    seq(|rows|, i requires 0 <= i < |rows| => MergedRow(rows[i], dk, s))
  }

  function NewRow(d: Dk): Row {
    var e := d.entry;
    Row(d.blz, e.name, e.city, e.bic, "", e.domain, e.url, e.hbci, e.fints, None)
  }

  predicate Names(rows: seq<Row>, blz: string) { exists r :: r in rows && r.blz == blz }

  function Added(rows: seq<Row>, dk: seq<Dk>): seq<Row> {
    if dk == [] then []
    else (if Names(rows, dk[0].blz) then [] else [NewRow(dk[0])]) + Added(rows, dk[1..])
  }

  // ----- the stable sort by bank code

  predicate Leq(a: string, b: string) {
    if a == "" then true
    else if b == "" then false
    else a[0] < b[0] || (a[0] == b[0] && Leq(a[1..], b[1..]))
  }

  /** In front of the first row that is not smaller, so that equal keys keep their order. */
  function Insert(r: Row, sorted: seq<Row>): seq<Row> {
    if sorted == [] || Leq(r.blz, sorted[0].blz) then [r] + sorted else [sorted[0]] + Insert(r, sorted[1..])
  }

  function SortByBlz(rows: seq<Row>): seq<Row> {
    if rows == [] then [] else Insert(rows[0], SortByBlz(rows[1..]))
  }

  predicate IsSorted(rows: seq<Row>) {
    forall i :: 0 <= i < |rows| - 1 ==> Leq(rows[i].blz, rows[i + 1].blz)
  }

  function WithBlz(rows: seq<Row>, blz: string): seq<Row> {
    if rows == [] then [] else (if rows[0].blz == blz then [rows[0]] else []) + WithBlz(rows[1..], blz)
  }

  lemma {:induction false} LeqTotal(a: string, b: string)
    ensures Leq(a, b) || Leq(b, a)
    ensures Leq(a, a)
    ensures Leq(a, b) && Leq(b, a) ==> a == b
    decreases |a|
  {
    if a != "" && b != "" {
      LeqTotal(a[1..], b[1..]);
      if a[0] == b[0] && a[1..] == b[1..] {
        assert [a[0]] + a[1..] == a && [b[0]] + b[1..] == b;
      }
    }
    if a != "" {
      LeqTotal(a[1..], a[1..]);
    }
  }

  lemma {:induction false} InsertIsSorted(r: Row, sorted: seq<Row>)
    requires IsSorted(sorted)
    ensures IsSorted(Insert(r, sorted))
    ensures Insert(r, sorted)[0] == r || (sorted != [] && Insert(r, sorted)[0] == sorted[0])
    decreases |sorted|
  {
    if sorted != [] && !Leq(r.blz, sorted[0].blz) {
      LeqTotal(r.blz, sorted[0].blz);
      InsertIsSorted(r, sorted[1..]);
    }
  }

  lemma {:induction false} InsertAddsOne(r: Row, sorted: seq<Row>)
    ensures multiset(Insert(r, sorted)) == multiset{r} + multiset(sorted)
    decreases |sorted|
  {
    if sorted != [] && !Leq(r.blz, sorted[0].blz) {
      InsertAddsOne(r, sorted[1..]);
      assert sorted == [sorted[0]] + sorted[1..];
    }
  }

  lemma WithBlzFirst(r: Row, rows: seq<Row>, b: string)
    ensures WithBlz([r] + rows, b) == (if r.blz == b then [r] else []) + WithBlz(rows, b)
  {
  }

  lemma {:induction false} InsertIsStable(r: Row, sorted: seq<Row>, b: string)
    ensures WithBlz(Insert(r, sorted), b) == WithBlz([r] + sorted, b)
    decreases |sorted|
  {
    hide Leq, WithBlz;
    if sorted != [] && !Leq(r.blz, sorted[0].blz) {
      var first, rest := sorted[0], sorted[1..];
      assert sorted == [first] + rest;
      LeqTotal(r.blz, first.blz);
      InsertIsStable(r, rest, b);
      WithBlzFirst(first, Insert(r, rest), b);
      WithBlzFirst(first, rest, b);
      WithBlzFirst(r, sorted, b);
      WithBlzFirst(r, rest, b);
    }
  }

  /** The sort is a sorted rearrangement in which rows of one bank code keep their order. */
  lemma {:induction false} SortIsStable(rows: seq<Row>, b: string)
    ensures IsSorted(SortByBlz(rows))
    ensures multiset(SortByBlz(rows)) == multiset(rows)
    ensures WithBlz(SortByBlz(rows), b) == WithBlz(rows, b)
    decreases |rows|
  {
    if rows != [] {
      var rest := SortByBlz(rows[1..]);
      SortIsStable(rows[1..], b);
      InsertIsSorted(rows[0], rest);
      InsertAddsOne(rows[0], rest);
      InsertIsStable(rows[0], rest, b);
      WithBlzFirst(rows[0], rest, b);
      assert rows == [rows[0]] + rows[1..];
    }
  }

  lemma {:induction false} SortOfSorted(rows: seq<Row>)
    requires IsSorted(rows)
    ensures SortByBlz(rows) == rows
    decreases |rows|
  {
    if rows != [] {
      SortOfSorted(rows[1..]);
      assert rows == [rows[0]] + rows[1..];
    }
  }

  // ----- the merge

  function Merged(rows: seq<Row>, dk: seq<Dk>, s: Settings): seq<Row> {
    SortByBlz(MergedRows(rows, dk, s) + Added(rows, dk))
  }

  predicate HasUrl(r: Row) { r.url != "" }

  function Connectable(rows: seq<Row>): nat {
    if rows == [] then 0 else (if HasUrl(rows[0]) then 1 else 0) + Connectable(rows[1..])
  }

  function Lost(rows: seq<Row>, dk: seq<Dk>, s: Settings): nat {
    if rows == [] then 0 else (if LosesUrl(rows[0], dk, s) then 1 else 0) + Lost(rows[1..], dk, s)
  }

  const MIN_DK_INSTITUTES := 500

  /** `lost / before > 0.10`, without the rounding of the division. */
  predicate TooManyLost(before: nat, lost: nat) { before > 0 && 10 * lost > before }

  datatype Result = Result(rows: seq<Row>, tooFewEntries: bool, tooManyLost: bool)

  /** The dictionary `by_bic`, filled in insertion order. */
  method IndexByBic(dk: seq<Dk>) returns (byBic: map<string, DkEntry>)
    ensures forall bic :: FindBic(dk, bic) == if bic in byBic then Some(byBic[bic]) else None
  {
    byBic := map[];
    for i := 0 to |dk|
      invariant forall bic :: FindBic(dk, bic) == if bic in byBic then Some(byBic[bic]) else FindBic(dk[i..], bic)
    {
      var e := dk[i].entry;
      assert dk[i..][1..] == dk[i + 1..];
      if e.bic != "" && IsBic(e.bic) && e.bic !in byBic {
        byBic := byBic[e.bic := e];
      }
    }
  }

  method MergeRow(row: Row, dk: seq<Dk>, byBic: map<string, DkEntry>, s: Settings)
    returns (merged: Row, lost: bool)
    requires forall bic :: FindBic(dk, bic) == if bic in byBic then Some(byBic[bic]) else None
    ensures merged == MergedRow(row, dk, s) && (lost <==> LosesUrl(row, dk, s))
  {
    var entry := Find(dk, row.blz);
    if entry.None? && s.matchBic && row.bic in byBic {
      entry := Some(byBic[row.bic]);
    }
    if entry.None? {
      return row, false;
    }
    var e := entry.value;
    merged := Row(row.blz, row.name, row.city, if row.bic != "" then row.bic else e.bic, row.check,
                  e.domain, e.url, e.hbci, e.fints, None);
    lost := false;
    if row.url != "" && e.url == "" {
      if s.allowClear {
        lost := true;
      } else {
        merged := merged.(url := row.url, domain := row.domain, hbci := row.hbci, fints := row.fints);
      }
    }
    merged := if SameFields(merged, row) then row else merged;
  }

  method MergeExisting(rows: seq<Row>, dk: seq<Dk>, s: Settings)
    returns (out: seq<Row>, seen: set<string>, before: nat, lost: nat)
    ensures out == MergedRows(rows, dk, s)
    ensures forall b :: b in seen <==> Names(rows, b)
    ensures before == Connectable(rows) && lost == Lost(rows, dk, s)
  {
    hide MergedRow, LosesUrl;
    var byBic := IndexByBic(dk);
    out, seen, before, lost := [], {}, 0, 0;
    for i := 0 to |rows|
      invariant out == MergedRows(rows, dk, s)[..i]
      invariant forall b :: b in seen <==> Names(rows[..i], b)
      invariant before + Connectable(rows[i..]) == Connectable(rows)
      invariant lost + Lost(rows[i..], dk, s) == Lost(rows, dk, s)
    {
      assert rows[i..][1..] == rows[i + 1..];
      NamesNext(rows, i);
      seen := seen + {rows[i].blz};
      before := before + (if HasUrl(rows[i]) then 1 else 0);
      var merged, loses := MergeRow(rows[i], dk, byBic, s);
      lost := lost + (if loses then 1 else 0);
      out := out + [merged];
    }
    assert rows[..|rows|] == rows;
  }

  method Merge(rows: seq<Row>, dk: seq<Dk>, s: Settings) returns (result: Result)
    ensures result.rows == Merged(rows, dk, s)
    ensures result.tooFewEntries <==> |dk| < 500
    ensures result.tooManyLost <==> Connectable(rows) > 0 && 10 * Lost(rows, dk, s) > Connectable(rows)
  {
    hide Names, MergedRows;
    var kept, seen, before, lost := MergeExisting(rows, dk, s);
    var out := kept;
    for i := 0 to |dk|
      invariant out + Added(rows, dk[i..]) == kept + Added(rows, dk)
    {
      assert dk[i..][1..] == dk[i + 1..];
      if dk[i].blz !in seen {
        assert out + ([NewRow(dk[i])] + Added(rows, dk[i + 1..])) == out + [NewRow(dk[i])] + Added(rows, dk[i + 1..]);
        out := out + [NewRow(dk[i])];
      }
    }
    assert out == kept + Added(rows, dk);
    result := Result(SortByBlz(out), |dk| < MIN_DK_INSTITUTES, TooManyLost(before, lost));
  }

  lemma NamesNext(rows: seq<Row>, i: nat)
    requires i < |rows|
    ensures forall b :: Names(rows[..i + 1], b) <==> Names(rows[..i], b) || b == rows[i].blz
  {
  }
}
