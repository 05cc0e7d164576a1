/** Which text stands in which column: of a line of the file, of a row of the DK table, of a merged row. */
module InstituteColumns {
  import opened Wrappers
  import opened Text
  import opened Fields
  import opened TextLaws
  import opened InstituteList
  import opened InstituteMerge
  import opened InstituteSource

  // ----- a line of the file

  lemma FirstEqualsSign(before: string, rest: string)
    requires Without(before, '=')
    ensures Partition(before + ("=" + rest)) == |before|
  {
    var line := before + ("=" + rest);
    assert At(line, 0, before);
    assert line[|before|] == '=';
    forall k | 0 <= k < |before|
      ensures NotEquals(before[k])
    {
    }
    SkipAt(line, 0, before, NotEquals);
  }

  lemma HashStaysFirst(s: string)
    requires s != "" && s[0] == '#'
    ensures Strip(s) != "" && Strip(s)[0] == '#'
  {
    assert StripLeft(s) == s;
    KeepsFirst(s);
  }

  lemma CodeIsNoComment(before: string)
    requires IsBlz(Strip(before))
    ensures before != "" && before[0] != '#'
  {
    if before != "" && before[0] == '#' {
      HashStaysFirst(before);
    }
  }

  lemma {:induction false} KeepsFirst(s: string)
    requires s != "" && !IsSpace(s[0])
    ensures StripRight(s) != "" && StripRight(s)[0] == s[0]
    decreases |s|
  {
    if IsSpace(s[|s| - 1]) {
      KeepsFirst(s[..|s| - 1]);
    }
  }

  lemma CodeIsNotBlank(before: string, rest: string)
    requires IsBlz(Strip(before))
    ensures Strip(before + ("=" + rest)) != ""
  {
    var line := before + ("=" + rest);
    assert line[|before|] == '=';
    if Strip(line) == "" {
      BlankOnlyWhenAllBlank(line);
    }
  }

  lemma {:induction false} RightBlank(s: string)
    requires StripRight(s) == ""
    ensures IsBlankText(s)
    decreases |s|
  {
    if s != "" {
      RightBlank(s[..|s| - 1]);
      assert s == s[..|s| - 1] + [s[|s| - 1]];
    }
  }

  lemma {:induction false} BlankOnlyWhenAllBlank(s: string)
    requires Strip(s) == ""
    ensures IsBlankText(s)
    decreases |s|
  {
    if s != "" && IsSpace(s[0]) {
      BlankOnlyWhenAllBlank(s[1..]);
      assert s == [s[0]] + s[1..];
    } else {
      RightBlank(s);
    }
  }

  /** A line is a row if and only if a bank code stands before its first equals sign and at least
      eight columns behind it, and the columns are these, blanks around them taken off. */
  lemma LineIsRowIff(before: string, parts: seq<string>)
    requires Without(before, '=') && parts != [] && forall p :: p in parts ==> Without(p, '|')
    ensures
      var line := before + ("=" + JoinWith(parts, '|'));
      && (ParseLine(line).Some? <==> IsBlz(Strip(before)) && |parts| >= 8)
      && (ParseLine(line).Some? ==>
            var row := ParseLine(line).value;
            && row.blz == Strip(before) && row.name == Strip(parts[0]) && row.city == Strip(parts[1])
            && row.bic == Strip(parts[2]) && row.check == Strip(parts[3]) && row.domain == Strip(parts[4])
            && row.url == Strip(parts[5]) && row.hbci == Strip(parts[6]) && row.fints == Strip(parts[7])
            && row.raw == Some(line))
  {
    hide IsBlz, Strip, JoinWith, SplitOn;
    var rest := JoinWith(parts, '|');
    var line := before + ("=" + rest);
    FirstEqualsSign(before, rest);
    SplitUndoesJoin(parts, '|');
    assert line[..|before|] == before && line[|before| + 1..] == rest;
    if IsBlz(Strip(before)) {
      CodeIsNoComment(before);
      CodeIsNotBlank(before, rest);
    }
  }

  lemma NoEqualsSignNoRow(line: string)
    requires Without(line, '=')
    ensures ParseLine(line) == None
  {
    assert At(line, 0, line);
    forall k | 0 <= k < |line|
      ensures NotEquals(line[k])
    {
    }
    SkipAt(line, 0, line, NotEquals);
  }

  /** A bank code of ASCII characters is eight digits. */
  lemma CodeIsEightDigits(s: string)
    requires forall k :: 0 <= k < |s| ==> s[k] as int < 0x80
    ensures IsBlz(s) <==> |s| == 8 && forall k :: 0 <= k < 8 ==> '0' <= s[k] <= '9'
  {
  }

  function Piped(column: string, rest: string): string { column + ("|" + rest) }

  /** A row without a line of its own is written as its bank code, an equals sign and its eight
      columns, each with a bar behind it. */
  lemma NewLineIs(row: Row)
    requires row.raw == None
    ensures row.Render() == row.blz + ("=" +
      Piped(row.name, Piped(row.city, Piped(row.bic, Piped(row.check,
        Piped(row.domain, Piped(row.url, Piped(row.hbci, Piped(row.fints, "")))))))))
  {
    var last := [row.hbci, row.fints, ""];
    var more := [row.bic, row.check, row.domain, row.url] + last;
    assert row.Columns() + [""] == [row.name, row.city] + more;
    hide Piped, JoinWith;
    JoinTwo(row.name, row.city, more);
    JoinTwo(row.bic, row.check, [row.domain, row.url] + last);
    assert more == [row.bic, row.check] + ([row.domain, row.url] + last);
    JoinTwo(row.domain, row.url, last);
    JoinTwo(row.hbci, row.fints, [""]);
    assert last == [row.hbci, row.fints] + [""];
    JoinOne("");
  }

  lemma JoinOne(part: string)
    ensures JoinWith([part], '|') == part
  {
  }

  lemma JoinTwo(a: string, b: string, rest: seq<string>)
    requires rest != []
    ensures JoinWith([a, b] + rest, '|') == Piped(a, Piped(b, JoinWith(rest, '|')))
  {
    assert ([a, b] + rest)[1..] == [b] + rest;
    assert ([b] + rest)[1..] == rest;
  }

  // ----- the text of a DK cell

  /** Words written with single blanks between them. */
  function Sentence(words: seq<string>): string {
    if words == [] then "" else JoinWith(words, ' ')
  }

  predicate IsPlainChar(c: char) { c != '|' && c != '=' && !('\U{80}' <= c <= '\U{9f}') }

  predicate IsPlain(words: seq<string>) {
    forall w :: w in words ==> IsOneWord(w) && All(w, IsPlainChar)
  }

  lemma {:induction false} PlainSentence(words: seq<string>)
    requires IsPlain(words)
    ensures All(Sentence(words), IsPlainChar) && IsTrimmed(Sentence(words))
  {
    if words != [] {
      JoinedWords(words);
    }
  }

  lemma {:induction false} PlainIsNotRepaired(s: string)
    requires All(s, IsPlainChar)
    ensures Repair(s) == s
    decreases |s|
  {
    if s != "" {
      assert All(s[1..], IsPlainChar);
      PlainIsNotRepaired(s[1..]);
      assert [s[0]] + s[1..] == s;
    }
  }

  /** Text without separators, stray bytes and double blanks is not touched by the cleaning. */
  lemma PlainTextIsKept(words: seq<string>)
    requires IsPlain(words)
    ensures CleanCell(Sentence(words)) == Sentence(words)
  {
    var s := Sentence(words);
    PlainSentence(words);
    PlainIsNotRepaired(s);
    assert Replace(s) == s;
    if words != [] {
      WordsAreReadBack(words);
    }
  }

  lemma {:induction false} RepairOfBoth(a: string, b: string)
    ensures Repair(a + b) == Repair(a) + Repair(b)
    decreases |a|
  {
    if a == "" {
      assert a + b == b;
    } else {
      assert (a + b)[1..] == a[1..] + b;
      RepairOfBoth(a[1..], b);
    }
  }

  lemma RepairOfThree(a: string, c: char, b: string)
    requires IsAscii(c)
    ensures Repair(a + ([c] + b)) == Repair(a) + ([c] + Repair(b))
  {
    RepairOfBoth(a, [c] + b);
    assert ([c] + b)[1..] == b;
  }

  lemma ReplaceOfThree(a: string, c: char, b: string)
    requires c == '|' || c == '/' || c == '='
    ensures Replace(a + ([c] + b)) == Replace(a) + ([if c == '=' then ' ' else '/'] + Replace(b))
  {
  }

  lemma WordsOfCleaned(value: string)
    ensures Words(CleanCell(value)) == Words(Replace(Repair(value)))
  {
    var words := Words(Replace(Repair(value)));
    forall w | w in words
      ensures IsOneWord(w)
    {
      WordsAreWords(Replace(Repair(value)), w);
    }
    if words != [] {
      WordsAreReadBack(words);
    }
  }

  /** A separator in a cell becomes a slash, and an equals sign parts two words. */
  lemma SeparatorsAreReplaced(a: string, b: string)
    ensures CleanCell(a + ("|" + b)) == CleanCell(a + ("/" + b))
    ensures Words(CleanCell(a + ("=" + b))) == Words(CleanCell(a)) + Words(CleanCell(b))
  {
    hide Repair, Replace, Words, JoinWith;
    RepairOfThree(a, '|', b);
    RepairOfThree(a, '/', b);
    RepairOfThree(a, '=', b);
    ReplaceOfThree(Repair(a), '|', Repair(b));
    ReplaceOfThree(Repair(a), '/', Repair(b));
    ReplaceOfThree(Repair(a), '=', Repair(b));
    BlankSeparatesWords(Replace(Repair(a)), ' ', Replace(Repair(b)));
    hide CleanCell;
    WordsOfCleaned(a);
    WordsOfCleaned(b);
    WordsOfCleaned(a + ("=" + b));
  }

  lemma RepairOfOne(c: char)
    ensures Repair([c]) == RepairChar(c)
  {
    assert [c][1..] == "";
  }

  /** Quotation marks, dashes and the euro sign come back from their Windows-1252 bytes; the five
      bytes without a meaning vanish, and every other one becomes one character. */
  lemma StrayBytesAreRepaired(c: char)
    ensures c == '\U{80}' ==> Repair([c]) == "\U{20ac}"
    ensures c == '\U{84}' ==> Repair([c]) == "\U{201e}"
    ensures c == '\U{93}' ==> Repair([c]) == "\U{201c}"
    ensures c == '\U{96}' ==> Repair([c]) == "\U{2013}"
    ensures c == '\U{97}' ==> Repair([c]) == "\U{2014}"
    ensures Repair([c]) == "" <==> c == '\U{81}' || c == '\U{8d}' || c == '\U{8f}' || c == '\U{90}' || c == '\U{9d}'
    ensures '\U{80}' <= c <= '\U{9f}' && Repair([c]) != "" ==> |Repair([c])| == 1 && Repair([c])[0] as int > 0x100
  {
    RepairOfOne(c);
  }

  /** The letters among the Windows-1252 bytes. */
  lemma LettersAreRepaired(c: char)
    ensures c == '\U{83}' ==> Repair([c]) == "\U{192}"
    ensures c == '\U{8a}' ==> Repair([c]) == "\U{160}"
    ensures c == '\U{8c}' ==> Repair([c]) == "\U{152}"
    ensures c == '\U{8e}' ==> Repair([c]) == "\U{17d}"
    ensures c == '\U{9a}' ==> Repair([c]) == "\U{161}"
    ensures c == '\U{9c}' ==> Repair([c]) == "\U{153}"
    ensures c == '\U{9e}' ==> Repair([c]) == "\U{17e}"
    ensures c == '\U{9f}' ==> Repair([c]) == "\U{178}"
  {
    RepairOfOne(c);
  }

  /** The marks among them that no other lemma names. */
  lemma MarksAreRepaired(c: char)
    ensures c == '\U{82}' ==> Repair([c]) == "\U{201a}"
    ensures c == '\U{85}' ==> Repair([c]) == "\U{2026}"
    ensures c == '\U{86}' ==> Repair([c]) == "\U{2020}"
    ensures c == '\U{87}' ==> Repair([c]) == "\U{2021}"
    ensures c == '\U{88}' ==> Repair([c]) == "\U{2c6}"
    ensures c == '\U{89}' ==> Repair([c]) == "\U{2030}"
    ensures c == '\U{8b}' ==> Repair([c]) == "\U{2039}"
    ensures c == '\U{91}' ==> Repair([c]) == "\U{2018}"
    ensures c == '\U{92}' ==> Repair([c]) == "\U{2019}"
    ensures c == '\U{94}' ==> Repair([c]) == "\U{201d}"
    ensures c == '\U{95}' ==> Repair([c]) == "\U{2022}"
    ensures c == '\U{98}' ==> Repair([c]) == "\U{2dc}"
    ensures c == '\U{99}' ==> Repair([c]) == "\U{2122}"
    ensures c == '\U{9b}' ==> Repair([c]) == "\U{203a}"
  {
    RepairOfOne(c);
  }

  // ----- a row of the DK table

  /** Column `i` holds `text` between blanks; a row that is too short holds nothing there. */
  ghost predicate Holds(cells: Cells, i: nat, text: string) {
    IsTrimmed(text)
    && if i < |cells| then exists before, after ::
         IsBlankText(before) && IsBlankText(after) && cells[i] == before + (text + after)
       else text == ""
  }

  lemma CellIs(cells: Cells, i: nat, text: string)
    requires Holds(cells, i, text)
    ensures Cell(cells, i) == text
  {
    if i < |cells| {
      var before, after :| IsBlankText(before) && IsBlankText(after) && cells[i] == before + (text + after);
      TrimmedTextComesBack(before, text, after);
    }
  }

  predicate IsUpperOf(upper: string, s: string) {
    |upper| == |s| && forall k :: 0 <= k < |s| ==>
      s[k] as int < 0x80 && upper[k] as int == if 'a' <= s[k] <= 'z' then s[k] as int - 32 else s[k] as int
  }

  lemma {:induction false} UpperIs(s: string, upper: string)
    requires IsUpperOf(upper, s)
    ensures Upper(s) == upper
    decreases |s|
  {
    if s != "" {
      UpperIs(s[1..], upper[1..]);
      assert upper == [upper[0]] + upper[1..];
    }
  }

  /** `https://` in letters of either case. */
  predicate NamesHttps(url: string) {
    && |url| >= 8
    && (url[0] == 'h' || url[0] == 'H') && (url[1] == 't' || url[1] == 'T') && (url[2] == 't' || url[2] == 'T')
    && (url[3] == 'p' || url[3] == 'P') && (url[4] == 's' || url[4] == 'S')
    && url[5] == ':' && url[6] == '/' && url[7] == '/'
  }

  lemma HttpsIs(url: string)
    ensures IsHttps(url) <==> NamesHttps(url)
  {
    if |url| >= 8 {
      var h := "https://";
      assert IsHttps(url) <==>
        && LowerChar(url[0]) == h[0] && LowerChar(url[1]) == h[1] && LowerChar(url[2]) == h[2]
        && LowerChar(url[3]) == h[3] && LowerChar(url[4]) == h[4] && LowerChar(url[5]) == h[5]
        && LowerChar(url[6]) == h[6] && LowerChar(url[7]) == h[7];
    }
  }

  lemma {:induction false} NothingToErase(s: string, piece: string)
    requires piece != "" && Without(s, piece[0])
    ensures Erased(s, piece) == s
    decreases |s|
  {
    if |s| >= |piece| {
      NothingToErase(s[1..], piece);
      assert [s[0]] + s[1..] == s;
    }
  }

  /** Every occurrence of the piece vanishes, the first one and those behind it. */
  lemma {:induction false} OccurrenceIsErased(before: string, piece: string, rest: string)
    requires piece != "" && Without(before, piece[0])
    ensures Erased(before + (piece + rest), piece) == before + Erased(rest, piece)
    decreases |before|
  {
    var s := before + (piece + rest);
    if before == "" {
      assert s[|piece|..] == rest;
    } else {
      assert s[0] == before[0] && s[1..] == before[1..] + (piece + rest);
      OccurrenceIsErased(before[1..], piece, rest);
      assert [before[0]] + (before[1..] + Erased(rest, piece)) == before + Erased(rest, piece);
    }
  }

  lemma VersionIs(version: seq<string>)
    requires IsPlain(version) && Without(Sentence(version), 'F')
    ensures CleanCell(Strip(Erased("FinTS V" + Sentence(version), "FinTS V"))) == Sentence(version)
  {
    var v := Sentence(version);
    hide CleanCell, Strip;
    OccurrenceIsErased("", "FinTS V", v);
    assert "" + ("FinTS V" + v) == "FinTS V" + v;
    NothingToErase(v, "FinTS V");
    PlainSentence(version);
    StripOfTrimmed(v);
    PlainTextIsKept(version);
  }

  /** Each column of the table ends up in the field of its name: the BIC in upper case, the version
      without its prefix, the URL only if it is an https address, all other text as it stands. */
  lemma RowIsDecoded(cells: Cells, col: Columns, blz: string, name: seq<string>, city: seq<string>,
                     bic: string, upper: string, dns: seq<string>, url: seq<string>, hbci: seq<string>,
                     version: seq<string>)
    requires IsPlain(name) && IsPlain(city) && IsPlain(dns) && IsPlain(url) && IsPlain(hbci) && IsPlain(version)
    requires Holds(cells, col.blz, blz) && IsBlz(blz)
    requires Holds(cells, col.name, Sentence(name)) && Holds(cells, col.city, Sentence(city))
    requires Holds(cells, col.bic, bic) && IsUpperOf(upper, bic)
    requires Holds(cells, col.dns, Sentence(dns)) && Holds(cells, col.url, Sentence(url))
    requires Holds(cells, col.hbci, Sentence(hbci))
    requires Holds(cells, col.version, "FinTS V" + Sentence(version)) && Without(Sentence(version), 'F')
    ensures Decode(cells, col) == Some(Dk(blz, DkEntry(
      name := Sentence(name), city := Sentence(city), bic := upper, domain := Sentence(dns),
      url := if NamesHttps(Sentence(url)) then Sentence(url) else "",
      hbci := Sentence(hbci), fints := Sentence(version))))
  {
    hide IsBlz, CleanCell, Erased, IsHttps, NamesHttps, Upper, IsUpperOf;
    hide Holds, Sentence, IsPlain, Cell, Strip, Without;
    CellIs(cells, col.blz, blz);
    CellIs(cells, col.name, Sentence(name));
    CellIs(cells, col.city, Sentence(city));
    CellIs(cells, col.bic, bic);
    CellIs(cells, col.dns, Sentence(dns));
    CellIs(cells, col.url, Sentence(url));
    CellIs(cells, col.hbci, Sentence(hbci));
    CellIs(cells, col.version, "FinTS V" + Sentence(version));
    PlainTextIsKept(name);
    PlainTextIsKept(city);
    PlainTextIsKept(dns);
    PlainTextIsKept(url);
    PlainTextIsKept(hbci);
    VersionIs(version);
    UpperIs(bic, upper);
    HttpsIs(Sentence(url));
  }

  /** A row without a bank code brings nothing. */
  lemma NoCodeNoEntry(cells: Cells, col: Columns, blz: string)
    requires Holds(cells, col.blz, blz) && !IsBlz(blz)
    ensures Decode(cells, col) == None
  {
    CellIs(cells, col.blz, blz);
  }

  // ----- the order of the DK list

  /** Of two bank codes the one whose first row comes earlier stands in front. */
  lemma {:induction false} CodesAreInOrder(ds: seq<Dk>, i: nat, j: nat)
    requires i < j < |Keys(ds)|
    ensures exists k ::
      0 <= k < |ds| && ds[k].blz == Keys(ds)[i] && forall m :: 0 <= m <= k ==> ds[m].blz != Keys(ds)[j]
    decreases |ds|
  {
    var before, last := ds[..|ds| - 1], ds[|ds| - 1];
    if j < |Keys(before)| {
      CodesAreInOrder(before, i, j);
      var k :| 0 <= k < |before| && before[k].blz == Keys(before)[i]
        && forall m :: 0 <= m <= k ==> before[m].blz != Keys(before)[j];
      assert ds[k].blz == Keys(ds)[i];
    } else {
      KeysAreNamed(before, Keys(ds)[i]);
      KeysAreNamed(before, last.blz);
      assert Keys(ds)[i] == Keys(before)[i] && Keys(ds)[i] in Keys(before);
      var k :| 0 <= k < |before| && before[k].blz == Keys(ds)[i];
      assert ds[k].blz == Keys(ds)[i];
      forall m | 0 <= m <= k
        ensures ds[m].blz != last.blz
      {
        assert before[m] in before;
      }
    }
  }

  // ----- the entry of a row

  /** Six letters, then two or five letters or digits, in upper case. */
  predicate IsBankName(s: string) {
    && (|s| == 8 || |s| == 11)
    && (forall k :: 0 <= k < 6 ==> 'A' <= s[k] <= 'Z')
    && (forall k :: 6 <= k < |s| ==> 'A' <= s[k] <= 'Z' || '0' <= s[k] <= '9')
  }

  lemma BicIs(s: string)
    ensures IsBic(s) <==> IsBankName(s)
  {
    if |s| == 8 || |s| == 11 {
      assert forall k :: 0 <= k < 6 ==> s[..6][k] == s[k];
      assert forall k :: 6 <= k < |s| ==> s[6..][k - 6] == s[k];
    }
  }

  /** The entry at `k` is the first that names this BIC, and the BIC is a valid one. */
  ghost predicate IsFirstOfBic(dk: seq<Dk>, k: int, bic: string) {
    0 <= k < |dk| && IsBankName(bic) && dk[k].entry.bic == bic && forall j :: 0 <= j < k ==> dk[j].entry.bic != bic
  }

  lemma FirstOfBicInRest(dk: seq<Dk>, k: int, bic: string)
    requires dk != [] && dk[0].entry.bic != bic && IsFirstOfBic(dk[1..], k, bic)
    ensures IsFirstOfBic(dk, k + 1, bic)
  {
    hide IsBankName;
    forall j | 0 <= j < k + 1
      ensures dk[j].entry.bic != bic
    {
      assert j > 0 ==> dk[j] == dk[1..][j - 1];
    }
  }

  lemma {:induction false} NoFindBicIff(dk: seq<Dk>, bic: string)
    ensures FindBic(dk, bic).None? <==> !IsBankName(bic) || forall d :: d in dk ==> d.entry.bic != bic
    decreases |dk|
  {
    hide IsBic, IsBankName;
    BicIs(bic);
    if dk != [] {
      NoFindBicIff(dk[1..], bic);
      assert forall d :: d in dk <==> d == dk[0] || d in dk[1..];
    }
  }

  lemma {:induction false} FindBicIs(dk: seq<Dk>, bic: string)
    requires FindBic(dk, bic).Some?
    ensures exists k :: IsFirstOfBic(dk, k, bic) && dk[k].entry == FindBic(dk, bic).value
    decreases |dk|
  {
    hide IsBic, IsBankName;
    BicIs(bic);
    if dk[0].entry.bic == bic {
      assert IsFirstOfBic(dk, 0, bic);
    } else {
      FindBicIs(dk[1..], bic);
      var k :| IsFirstOfBic(dk[1..], k, bic) && dk[1..][k].entry == FindBic(dk[1..], bic).value;
      FirstOfBicInRest(dk, k, bic);
      assert dk[k + 1] == dk[1..][k];
    }
  }

  lemma FirstOfBicIsOne(dk: seq<Dk>, bic: string, k: int, j: int)
    requires IsFirstOfBic(dk, k, bic) && IsFirstOfBic(dk, j, bic)
    ensures k == j
  {
  }

  lemma {:induction false} FindIs(dk: seq<Dk>, k: nat)
    requires UniqueKeys(dk) && k < |dk|
    ensures Find(dk, dk[k].blz) == Some(dk[k].entry)
    decreases |dk|
  {
    if k > 0 {
      FindIs(dk[1..], k - 1);
    }
  }

  /** The entry of a row is the one with its bank code; only where the list does not name the code,
      and matching by BIC is asked for, it is the first one that names the row's valid BIC. */
  lemma SourceIs(row: Row, dk: seq<Dk>, s: Settings, k: nat)
    requires UniqueKeys(dk) && k < |dk|
    ensures dk[k].blz == row.blz ==> Source(row, dk, s) == Some(dk[k].entry)
    ensures (forall d :: d in dk ==> d.blz != row.blz) && s.matchBic && IsFirstOfBic(dk, k, row.bic) ==>
      Source(row, dk, s) == Some(dk[k].entry)
  {
    FindIs(dk, k);
    NoFindBicIff(dk, row.bic);
    if IsFirstOfBic(dk, k, row.bic) {
      assert dk[k] in dk;
      FindBicIs(dk, row.bic);
      var j :| IsFirstOfBic(dk, j, row.bic) && dk[j].entry == FindBic(dk, row.bic).value;
      FirstOfBicIsOne(dk, row.bic, k, j);
    }
  }

  lemma NoSourceIff(row: Row, dk: seq<Dk>, s: Settings)
    ensures Source(row, dk, s) == None <==>
      && (forall d :: d in dk ==> d.blz != row.blz)
      && (s.matchBic && IsBankName(row.bic) ==> forall d :: d in dk ==> d.entry.bic != row.bic)
  {
    NoFindBicIff(dk, row.bic);
    if e :| Find(dk, row.blz) == Some(e) {
      assert Dk(row.blz, e) in dk;
    }
  }

  // ----- the columns of merged rows

  /** A row takes its whole address from its entry, unless that would remove its URL and clearing is
      not allowed; the entry's BIC fills an empty one; the line is kept only if no column changes. */
  lemma MergedColumns(row: Row, dk: seq<Dk>, s: Settings, e: DkEntry)
    requires Source(row, dk, s) == Some(e)
    ensures
      var merged := MergedRow(row, dk, s);
      var keeps := row.url != "" && e.url == "" && !s.allowClear;
      && merged.blz == row.blz && merged.name == row.name && merged.city == row.city && merged.check == row.check
      && merged.bic == (if row.bic == "" then e.bic else row.bic)
      && merged.url == (if keeps then row.url else e.url)
      && merged.domain == (if keeps then row.domain else e.domain)
      && merged.hbci == (if keeps then row.hbci else e.hbci)
      && merged.fints == (if keeps then row.fints else e.fints)
      && merged.raw == (if merged.Columns() == row.Columns() then row.raw else None)
    ensures LosesUrl(row, dk, s) <==> row.url != "" && MergedRow(row, dk, s).url == ""
  {
    hide Source;
    var merged := MergedRow(row, dk, s);
    var m, c := merged.Columns(), row.Columns();
    assert m == c ==>
      && m[0] == c[0] && m[1] == c[1] && m[2] == c[2] && m[3] == c[3]
      && m[4] == c[4] && m[5] == c[5] && m[6] == c[6] && m[7] == c[7];
  }

  /** The added rows are those of the entries whose bank code no row has, with all their columns. */
  lemma {:induction false} AddedRowsAre(rows: seq<Row>, dk: seq<Dk>, r: Row)
    ensures r in Added(rows, dk) <==> exists d ::
      && d in dk && (forall row :: row in rows ==> row.blz != d.blz)
      && r.blz == d.blz && r.name == d.entry.name && r.city == d.entry.city && r.bic == d.entry.bic && r.check == ""
      && r.domain == d.entry.domain && r.url == d.entry.url && r.hbci == d.entry.hbci && r.fints == d.entry.fints
      && r.raw == None
    decreases |dk|
  {
    if dk != [] {
      AddedRowsAre(rows, dk[1..], r);
      assert dk == [dk[0]] + dk[1..];
    }
  }

  lemma {:induction false} AddedOnce(rows: seq<Row>, dk: seq<Dk>)
    requires UniqueKeys(dk)
    ensures forall i, j :: 0 <= i < j < |Added(rows, dk)| ==> Added(rows, dk)[i].blz != Added(rows, dk)[j].blz
    decreases |dk|
  {
    if dk != [] {
      AddedOnce(rows, dk[1..]);
      var rest := Added(rows, dk[1..]);
      forall r | r in rest
        ensures r.blz != dk[0].blz
      {
        AddedRowsAre(rows, dk[1..], r);
      }
    }
  }

  /** The order of bank codes: the first different character decides, and a prefix comes first. */
  lemma {:induction false} LeqIs(a: string, b: string)
    ensures Leq(a, b) <==>
      a <= b || exists k :: 0 <= k < |a| && k < |b| && a[..k] == b[..k] && a[k] as int < b[k] as int
    decreases |a|
  {
    if a != "" && b != "" {
      LeqIs(a[1..], b[1..]);
      if a[0] == b[0] && Leq(a, b) && !(a[1..] <= b[1..]) {
        var k :| 0 <= k < |a[1..]| && k < |b[1..]| && a[1..][..k] == b[1..][..k] && a[1..][k] < b[1..][k];
        assert a[..k + 1] == [a[0]] + a[1..][..k] && b[..k + 1] == [b[0]] + b[1..][..k];
        assert a[k + 1] < b[k + 1];
      }
      if a[0] < b[0] {
        assert a[..0] == b[..0];
      }
      if k :| 0 <= k < |a| && k < |b| && a[..k] == b[..k] && a[k] < b[k] {
        if k > 0 {
          assert a[0] == a[..k][0] == b[..k][0] == b[0];
          assert a[1..][..k - 1] == a[..k][1..] && b[1..][..k - 1] == b[..k][1..];
          assert a[1..][k - 1] < b[1..][k - 1];
        }
      }
    }
  }

  /** Nothing but the merged and the added rows is in the result, and each as often as before. */
  lemma MergedRowsAreAllThere(rows: seq<Row>, dk: seq<Dk>, s: Settings)
    ensures multiset(Merged(rows, dk, s)) == multiset(MergedRows(rows, dk, s)) + multiset(Added(rows, dk))
    ensures |MergedRows(rows, dk, s)| == |rows|
    ensures forall i :: 0 <= i < |rows| ==> MergedRows(rows, dk, s)[i] == MergedRow(rows[i], dk, s)
  {
    SortIsStable(MergedRows(rows, dk, s) + Added(rows, dk), "");
  }
}
