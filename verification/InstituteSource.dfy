/** The DK list: from decoded table cells to one entry per bank code. */
module InstituteSource {
  import opened Wrappers
  import opened Text
  import opened Fields
  import opened InstituteList
  import opened InstituteMerge

  type Cells = seq<string>

  /** The positions of the required columns, found in the header line. */
  datatype Columns = Columns(blz: nat, bic: nat, name: nat, city: nat, dns: nat, hbci: nat, url: nat, version: nat)

  function Cell(cells: Cells, i: nat): string {
    if i < |cells| then Strip(cells[i]) else ""
  }

  // ----- text of one cell

  /** What the bytes 0x80 to 0x9f mean in Windows-1252; five of them mean nothing and vanish. */
  const WINDOWS_1252: seq<string> := [
    "\U{20ac}", "", "\U{201a}", "\U{0192}", "\U{201e}", "\U{2026}", "\U{2020}", "\U{2021}",
    "\U{02c6}", "\U{2030}", "\U{0160}", "\U{2039}", "\U{0152}", "", "\U{017d}", "",
    "", "\U{2018}", "\U{2019}", "\U{201c}", "\U{201d}", "\U{2022}", "\U{2013}", "\U{2014}",
    "\U{02dc}", "\U{2122}", "\U{0161}", "\U{203a}", "\U{0153}", "", "\U{017e}", "\U{0178}"]

  function RepairChar(c: char): string {
    if '\U{80}' <= c <= '\U{9f}' then WINDOWS_1252[c as int - 0x80] else [c]
  }

  function Repair(s: string): string {
    if s == "" then "" else RepairChar(s[0]) + Repair(s[1..])
  }

  function CleanCell(value: string): string { Clean(Repair(value)) }

  function Erased(s: string, piece: string): string
    requires piece != ""
  {
    if |s| < |piece| then s
    else if piece <= s then Erased(s[|piece|..], piece)
    else [s[0]] + Erased(s[1..], piece)
  }

  /** Upper case beyond ASCII is left open; it may be several characters. */
  const OTHER_UPPER: map<char, string>

  function UpperChar(c: char): string {
    if 'a' <= c <= 'z' then [c - 'a' + 'A']
    else if c as int >= 128 && c in OTHER_UPPER then OTHER_UPPER[c]
    else [c]
  }

  function Upper(s: string): string {
    if s == "" then "" else UpperChar(s[0]) + Upper(s[1..])
  }

  function LowerChar(c: char): char { if 'A' <= c <= 'Z' then c - 'A' + 'a' else c }

  /** `url.lower().startswith("https://")`; no character beyond ASCII has one of these letters as its lower case. */
  predicate IsHttps(url: string) {
    |url| >= 8 && forall k :: 0 <= k < 8 ==> LowerChar(url[k]) == "https://"[k]
  }

  // ----- rows

  /** A row without a valid bank code is skipped; a URL that is not https is not taken over. */
  function Decode(cells: Cells, col: Columns): Option<Dk> {
    var blz, url := Cell(cells, col.blz), Cell(cells, col.url);
    if !IsBlz(blz) then None
    else
      Some(Dk(blz, DkEntry(
        CleanCell(Cell(cells, col.name)), CleanCell(Cell(cells, col.city)), Upper(Cell(cells, col.bic)),
        CleanCell(Cell(cells, col.dns)), if IsHttps(url) then CleanCell(url) else "",
        CleanCell(Cell(cells, col.hbci)), CleanCell(Strip(Erased(Cell(cells, col.version), "FinTS V"))))))
  }

  function Decoded(table: seq<Cells>, col: Columns): seq<Dk> {
    if table == [] then []
    else
      var last := Decode(table[|table| - 1], col);
      Decoded(table[..|table| - 1], col) + (if last.Some? then [last.value] else [])
  }

  // ----- one entry per bank code

  function EntriesOf(ds: seq<Dk>, blz: string): seq<DkEntry> {
    if ds == [] then []
    else
      var last := ds[|ds| - 1];
      EntriesOf(ds[..|ds| - 1], blz) + (if last.blz == blz then [last.entry] else [])
  }

  /** The bank codes in the order of their first rows. */
  function Keys(ds: seq<Dk>): seq<string> {
    if ds == [] then []
    else
      var before, last := Keys(ds[..|ds| - 1]), ds[|ds| - 1].blz;
      if last in before then before else before + [last]
  }

  function WithUrl(entries: seq<DkEntry>): seq<DkEntry> {
    if entries == [] then []
    else
      var last := entries[|entries| - 1];
      WithUrl(entries[..|entries| - 1]) + (if last.url != "" then [last] else [])
  }

  function Chosen(entries: seq<DkEntry>): DkEntry
    requires entries != []
  {
    var withUrl := WithUrl(entries);
    if withUrl != [] then withUrl[0] else entries[0]
  }

  lemma {:induction false} KeysAreNamed(ds: seq<Dk>, blz: string)
    ensures blz in Keys(ds) <==> exists d :: d in ds && d.blz == blz
    ensures blz in Keys(ds) <==> EntriesOf(ds, blz) != []
    decreases |ds|
  {
    if ds != [] {
      var before, last := ds[..|ds| - 1], ds[|ds| - 1];
      assert ds == before + [last];
      KeysAreNamed(before, blz);
      if exists d :: d in before && d.blz == blz {
        var d :| d in before && d.blz == blz;
        assert d in ds;
      }
      if last.blz == blz {
        assert last in ds;
      }
    }
  }

  lemma {:induction false} KeysAreUnique(ds: seq<Dk>)
    ensures forall i, j :: 0 <= i < j < |Keys(ds)| ==> Keys(ds)[i] != Keys(ds)[j]
    decreases |ds|
  {
    if ds != [] {
      KeysAreUnique(ds[..|ds| - 1]);
    }
  }

  /** The dictionary of the script, in insertion order. */
  function OnePerKey(ds: seq<Dk>): seq<Dk> {
    seq(|Keys(ds)|, i requires 0 <= i < |Keys(ds)| =>
      KeysAreNamed(ds, Keys(ds)[i]);
      Dk(Keys(ds)[i], Chosen(EntriesOf(ds, Keys(ds)[i]))))
  }

  function DkList(table: seq<Cells>, col: Columns): seq<Dk> { OnePerKey(Decoded(table, col)) }

  method ChooseRows(ghost ds: seq<Dk>, order: seq<string>, grouped: map<string, seq<DkEntry>>)
    returns (entries: seq<Dk>)
    requires order == Keys(ds) && forall b :: b in order ==> b in grouped && grouped[b] == EntriesOf(ds, b)
    ensures entries == OnePerKey(ds)
  {
    hide Chosen, Keys, EntriesOf;
    entries := [];
    for i := 0 to |order|
      invariant entries == OnePerKey(ds)[..i]
    {
      KeysAreNamed(ds, order[i]);
      entries := entries + [Dk(order[i], Chosen(grouped[order[i]]))];
    }
  }

  method ReadDk(table: seq<Cells>, col: Columns) returns (entries: seq<Dk>)
    ensures entries == DkList(table, col)
  {
    hide Decode, Chosen, Decoded, Keys, EntriesOf, OnePerKey;
    var grouped: map<string, seq<DkEntry>> := map[];
    var order: seq<string> := [];
    NothingDecoded(col);
    for i := 0 to |table|
      invariant order == Keys(Decoded(table[..i], col))
      invariant forall b :: b in grouped <==> b in order
      invariant forall b :: EntriesOf(Decoded(table[..i], col), b) == if b in grouped then grouped[b] else []
    {
      var decoded := Decode(table[i], col);
      DecodeOneMore(table, i, col);
      if decoded.Some? {
        var d := decoded.value;
        OneMore(Decoded(table[..i], col), d);
        if d.blz !in grouped {
          grouped := grouped[d.blz := []];
          order := order + [d.blz];
        }
        grouped := grouped[d.blz := grouped[d.blz] + [d.entry]];
      }
    }
    assert table[..|table|] == table;
    entries := ChooseRows(Decoded(table, col), order, grouped);
  }

  lemma NothingDecoded(col: Columns)
    ensures Keys(Decoded([], col)) == []
    ensures forall b :: EntriesOf(Decoded([], col), b) == []
  {
  }

  lemma DecodeOneMore(table: seq<Cells>, i: nat, col: Columns)
    requires i < |table|
    ensures Decoded(table[..i + 1], col)
         == match Decode(table[i], col)
            case Some(d) => Decoded(table[..i], col) + [d]
            case None => Decoded(table[..i], col)
  {
    hide Decode;
    assert table[..i + 1][..i] == table[..i];
  }

  lemma OneMore(ds: seq<Dk>, d: Dk)
    ensures Keys(ds + [d]) == if d.blz in Keys(ds) then Keys(ds) else Keys(ds) + [d.blz]
    ensures forall b :: EntriesOf(ds + [d], b) == EntriesOf(ds, b) + (if d.blz == b then [d.entry] else [])
  {
    assert (ds + [d])[..|ds|] == ds;
  }

  // ----- what the entries are

  /** Row `k` is the first of its bank code with a URL, or the first one when none has a URL. */
  predicate IsFirstChoice(ds: seq<Dk>, k: nat)
    requires k < |ds|
  {
    && (forall j :: 0 <= j < k && ds[j].blz == ds[k].blz ==> ds[j].entry.url == "" && ds[k].entry.url != "")
    && (ds[k].entry.url == "" ==> forall j :: 0 <= j < |ds| && ds[j].blz == ds[k].blz ==> ds[j].entry.url == "")
  }

  lemma {:induction false} WithUrlHaveUrls(entries: seq<DkEntry>)
    ensures forall e :: e in WithUrl(entries) ==> e.url != ""
    ensures WithUrl(entries) == [] <==> forall e :: e in entries ==> e.url == ""
    decreases |entries|
  {
    if entries != [] {
      var before, last := entries[..|entries| - 1], entries[|entries| - 1];
      assert entries == before + [last];
      WithUrlHaveUrls(before);
    }
  }

  lemma ChosenOfMore(entries: seq<DkEntry>, e: DkEntry)
    requires entries != []
    ensures Chosen(entries + [e]) == if Chosen(entries).url == "" && e.url != "" then e else Chosen(entries)
  {
    assert (entries + [e])[..|entries|] == entries;
    WithUrlHaveUrls(entries);
    assert entries[0] in entries;
    if WithUrl(entries) != [] {
      assert WithUrl(entries)[0] in WithUrl(entries);
    }
  }

  lemma {:induction false} ChosenIsFirstChoice(ds: seq<Dk>, blz: string) returns (k: nat)
    requires EntriesOf(ds, blz) != []
    ensures k < |ds| && ds[k] == Dk(blz, Chosen(EntriesOf(ds, blz))) && IsFirstChoice(ds, k)
    decreases |ds|
  {
    hide Chosen, WithUrl;
    var before, last := ds[..|ds| - 1], ds[|ds| - 1];
    var earlier := EntriesOf(before, blz);
    if last.blz != blz {
      assert EntriesOf(ds, blz) == earlier;
      k := ChosenIsFirstChoice(before, blz);
    } else if earlier == [] {
      k := |ds| - 1;
      NoneNamed(before, blz);
      assert EntriesOf(ds, blz) == [last.entry];
      OnlyOne(last.entry);
    } else {
      ChosenOfMore(earlier, last.entry);
      k := ChosenIsFirstChoice(before, blz);
      if ds[k].entry.url == "" && last.entry.url != "" {
        k := |ds| - 1;
      }
    }
  }

  lemma OnlyOne(e: DkEntry)
    ensures Chosen([e]) == e
  {
    assert WithUrl([e][..0]) == [];
  }

  lemma NoneNamed(ds: seq<Dk>, blz: string)
    requires EntriesOf(ds, blz) == []
    ensures forall j :: 0 <= j < |ds| ==> ds[j].blz != blz
  {
    KeysAreNamed(ds, blz);
  }

  /** The list has one entry for every bank code with a valid row, in the order of first rows, and
      the entry is the first row of its code with a URL, or the first one when none has a URL. */
  lemma EntriesAreFirstChoices(table: seq<Cells>, col: Columns)
    ensures UniqueKeys(DkList(table, col))
    ensures forall d :: d in Decoded(table, col) ==> exists e :: e in DkList(table, col) && e.blz == d.blz
    ensures
      var ds := Decoded(table, col);
      forall e :: e in DkList(table, col) ==> exists k :: 0 <= k < |ds| && ds[k] == e && IsFirstChoice(ds, k)
  {
    hide Chosen, Decoded, IsFirstChoice;
    var ds, list := Decoded(table, col), DkList(table, col);
    KeysAreUnique(ds);
    forall d | d in ds
      ensures exists e :: e in list && e.blz == d.blz
    {
      KeysAreNamed(ds, d.blz);
      var i :| 0 <= i < |list| && Keys(ds)[i] == d.blz;
      assert list[i] in list;
    }
    forall e | e in list
      ensures exists k :: 0 <= k < |ds| && ds[k] == e && IsFirstChoice(ds, k)
    {
      KeysAreNamed(ds, e.blz);
      var k := ChosenIsFirstChoice(ds, e.blz);
    }
  }

  // ----- what survives the cleaning

  predicate IsAscii(c: char) { c as int < 0x80 }

  lemma {:induction false} RepairKeepsStart(start: string, s: string)
    requires start <= s && All(start, IsAscii)
    ensures start <= Repair(s)
    decreases |start|
  {
    if start != "" {
      RepairKeepsStart(start[1..], s[1..]);
      assert RepairChar(s[0]) == [start[0]];
      assert [start[0]] + start[1..] == start;
    }
  }

  lemma {:induction false} FirstWord(start: string, s: string)
    requires start <= s && IsOneWord(start)
    ensures Words(s) != [] && start <= Words(s)[0]
    decreases |start|
  {
    if |start| > 1 {
      assert IsOneWord(start[1..]) && start[1..] <= s[1..];
      FirstWord(start[1..], s[1..]);
    }
  }

  /** The first eight characters of an https URL come through the cleaning unchanged. */
  lemma HttpsSurvives(url: string)
    requires IsHttps(url)
    ensures IsHttps(CleanCell(url)) && url[..8] <= CleanCell(url)
  {
    var start := url[..8];
    forall k | 0 <= k < 8
      ensures IsAscii(start[k]) && start[k] != '|' && start[k] != '=' && !IsSpace(start[k])
    {
      assert LowerChar(url[k]) == "https://"[k];
    }
    RepairKeepsStart(start, url);
    var replaced := Replace(Repair(url));
    assert start <= replaced;
    FirstWord(start, replaced);
    assert Words(replaced)[0] <= CleanCell(url);
    forall k | 0 <= k < 8
      ensures CleanCell(url)[k] == url[k]
    {
      assert CleanCell(url)[k] == start[k];
    }
  }

  /** What every row of the table brings: fields in all columns but the BIC, which is not cleaned,
      and a URL exactly if the cell names an https address. */
  predicate IsCleanEntry(d: Dk) {
    && IsBlz(d.blz)
    && IsField(d.entry.name) && IsField(d.entry.city) && IsField(d.entry.domain)
    && IsField(d.entry.url) && IsField(d.entry.hbci) && IsField(d.entry.fints)
    && (d.entry.url == "" || IsHttps(d.entry.url))
  }

  predicate IsCleanList(dk: seq<Dk>) { forall d :: d in dk ==> IsCleanEntry(d) }

  lemma DecodedRowIsClean(cells: Cells, col: Columns)
    requires Decode(cells, col).Some?
    ensures IsCleanEntry(Decode(cells, col).value)
    ensures Decode(cells, col).value.entry.url != "" <==> IsHttps(Cell(cells, col.url))
  {
    hide CleanCell, IsBlz, IsField, IsHttps;
    var url := Cell(cells, col.url);
    CellIsField(Cell(cells, col.name));
    CellIsField(Cell(cells, col.city));
    CellIsField(Cell(cells, col.dns));
    CellIsField(Cell(cells, col.hbci));
    CellIsField(Strip(Erased(Cell(cells, col.version), "FinTS V")));
    CellIsField(url);
    EmptyIsField();
    if IsHttps(url) {
      HttpsSurvives(url);
      HttpsIsNotEmpty(CleanCell(url));
    }
  }

  lemma CellIsField(value: string)
    ensures IsField(CleanCell(value))
  {
    CleanIsField(Repair(value));
  }

  lemma EmptyIsField()
    ensures IsField("")
  {
  }

  lemma HttpsIsNotEmpty(url: string)
    requires IsHttps(url)
    ensures url != ""
  {
  }

  lemma {:induction false} DecodedAreClean(table: seq<Cells>, col: Columns)
    ensures IsCleanList(Decoded(table, col))
    decreases |table|
  {
    hide Decode, IsCleanEntry;
    if table != [] {
      DecodedAreClean(table[..|table| - 1], col);
      if Decode(table[|table| - 1], col).Some? {
        DecodedRowIsClean(table[|table| - 1], col);
      }
    }
  }

  /** Whatever the table holds, the entries are clean fields up to the BIC, and a URL is https. */
  lemma DkListIsClean(table: seq<Cells>, col: Columns)
    ensures UniqueKeys(DkList(table, col)) && IsCleanList(DkList(table, col))
  {
    hide IsCleanEntry, IsFirstChoice;
    EntriesAreFirstChoices(table, col);
    DecodedAreClean(table, col);
  }

  lemma {:induction false} InDecoded(table: seq<Cells>, col: Columns, d: Dk)
    ensures d in Decoded(table, col) <==> exists cells :: cells in table && Decode(cells, col) == Some(d)
    decreases |table|
  {
    hide Decode;
    if table != [] {
      InDecoded(table[..|table| - 1], col, d);
      assert table == table[..|table| - 1] + [table[|table| - 1]];
    }
  }

  /** An entry has a URL if and only if some row of its bank code names an https address. */
  lemma EntryHasUrlIff(table: seq<Cells>, col: Columns, e: Dk)
    requires e in DkList(table, col)
    ensures e.entry.url != "" <==>
      exists cells :: cells in table && Cell(cells, col.blz) == e.blz && IsHttps(Cell(cells, col.url))
  {
    hide Decode, Decoded, IsCleanEntry, DkList, IsHttps, Cell;
    var ds := Decoded(table, col);
    EntriesAreFirstChoices(table, col);
    DkListIsClean(table, col);
    var k :| 0 <= k < |ds| && ds[k] == e && IsFirstChoice(ds, k);
    InDecoded(table, col, e);
    var own :| own in table && Decode(own, col) == Some(e);
    DecodedNames(own, col);
    DecodedRowIsClean(own, col);
    forall cells | cells in table && Cell(cells, col.blz) == e.blz && IsHttps(Cell(cells, col.url))
      ensures e.entry.url != ""
    {
      DecodedNames(cells, col);
      DecodedNames(own, col);
      DecodedRowIsClean(cells, col);
      InDecoded(table, col, Decode(cells, col).value);
    }
  }

  lemma DecodedNames(cells: Cells, col: Columns)
    ensures Decode(cells, col).Some? <==> IsBlz(Cell(cells, col.blz))
    ensures Decode(cells, col).Some? ==> Decode(cells, col).value.blz == Cell(cells, col.blz)
  {
    hide CleanCell, IsHttps, Upper;
  }
}
