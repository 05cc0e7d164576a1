# Verification models of the property management platform

Dafny models of the parts of the repository whose promises are hardest to see from one function,
with proofs of those promises for every input, every run or every interleaving.

| Part | Modules | Form |
|---|---|---|
| Ledger tables and their triggers | `Ledger`, `LedgerDatabase`, `LedgerSafety`, `LedgerReports`, `LedgerHoles`, `LedgerStatements`, `LedgerTransactions`, `Sums` | class with map fields, trigger methods, transactions with a queue of deferred checks; specification functions |
| Validity periods of contracts and payments | `Periods` | class with a map field under an exclusion constraint |
| ICU argument scanner | `Text`, `IcuArguments`, `IcuMessages`, `IcuQuotes`, `IcuStyles`, `IcuLimits`, `IcuPatterns` | mutually recursive methods with loops; message trees and their printed form |
| Translation call scanner | `CallScanner`, `CallTrees`, `CallParsing` | methods with loops; token trees and their printed form |
| FinTS institute list | `Fields`, `TextLaws`, `InstituteList`, `InstituteSource`, `InstituteMerge`, `InstituteRules`, `InstituteColumns` | methods with loops over lists and dictionaries |
| Server import walk | `ImportWalk` | worklist method |
| Handbook parser | `Handbook`, `HandbookDocuments`, `HandbookLayouts` | methods with nested loops; block lists and their printed lines |
| Message catalogues | `Catalogue`, `CataloguePaths`, `Images` | methods filling maps |
| Signature store and pointer handlers | `Signature` | classes with shared stroke objects |
| Service worker navigation | `Navigation` | class whose methods are the callbacks |

Each method is proved against a specification function, and the promises are lemmas about that
function. `dafny verify dfyconfig.toml` checks the project.

## What was found

* The line guard of the ledger looks only at the entry the new row names, so an update may take a
  line away from a posted entry (`LedgerHoles.PostedEntryCanLoseALine`). Rule B03 in
  `docs/rules/B03.md` says posted lines cannot change; the code is followed here. Balance of the
  posted entries survives a statement if and only if it is not such an update
  (`LedgerSafety.BalanceKeptIff`), and lines of posted entries stay as they are over a whole
  history if and only if no committed transaction contains one
  (`LedgerSafety.PostedLinesFrozenForeverIff`).
* Nothing guards `ledger_id` of an entry or an account that has lines
  (`LedgerHoles.RelabelledAccountBreaksTheTrialBalance`); `LedgerReports.CoherentIff` says that
  this is the only way a line leaves the ledger of its entry. Every trial balance is zero if and only
  if the lines each posted entry has outside its ledger cancel out
  (`LedgerReports.TrialBalancesAreZeroIff`), and giving an account to another ledger keeps that if and
  only if the account nets to zero within each posted entry
  (`LedgerReports.RelabelKeepsTrialBalancesIff`).
* Posted entries without a fiscal year may share a number (`LedgerHoles.NullYearNumbersRepeat`); the
  number of a posted entry stays its own if and only if the entry has a fiscal year
  (`LedgerHoles.NumberStaysUniqueIff`).
* The ICU scanner reads messages differently from the format in five places: a doubled apostrophe
  inside quoted text before an ordinary character ends the quote
  (`IcuMessages.DoubledApostropheLeaksNames`); text in a plural that is quoted from a number sign on is
  not taken for a quote, so that `{n,plural,other{'#'{x}}}` yields only `n` and
  `{n,plural,other{'#{x}' a}}` yields `x` too (`IcuLimits.QuotedHashHidesName`,
  `IcuLimits.QuotedHashLeaksName`); a quoted brace in a style is counted as a brace, so that
  `{d,date,'{'}{x}` yields only `d` (`IcuLimits.QuotedBraceInStyleHidesName`); the sub-messages of a
  choice are skipped (`IcuLimits.ChoiceHidesName`); and names that start with a digit or beyond ASCII
  are not seen (`IcuLimits.NumberIsMissed`). `IcuLimits.ScannerIsRightIff` gives the exact condition. A
  single message can come out right against it; some message with the same text does not.
* The text of a template literal nested in an expression of a template literal lies outside quotes
  for the comma splitter (`CallParsing.NestedTemplateIsSplit`); the arguments come apart rightly if and
  only if no such text has a comma outside its brackets and those around it (`CallParsing.CallIsReadBackIff`).
* An empty top level key that holds an object, and a key with a dot, make the flattened keys differ
  from the paths that can be looked up; among catalogues without dots, or whose ends are filed under
  different keys, these are the only reasons (`Catalogue.FlattenAgreesWithWalkIff`,
  `Catalogue.DottedKeysDisagree`).
* The BIC of a DK row is the one column written without cleaning; the merged file is read back as
  merged if and only if every BIC taken over is a field (`InstituteRules.MergedFileIsReadBackIff`).
* A second pointer press while drawing leaves a stroke of a single point, which draws nothing
  (`Signature.ClosedStrokesAreLinesIff`).

## Model

| member | source | states |
|---|---|---|
| LedgerDatabase.Database.EntryGuard | apps/api/alembic/versions/0010_ledger.py:52-76 | the guard lets a posted row change only in its marks, and a reversal reference be set once; a posted row is never deleted |
| LedgerDatabase.Database.LineGuard | apps/api/alembic/versions/0010_ledger.py:77-103 | the guard refuses exactly lines whose named entry is posted or whose account is of another ledger, with null compared as the database does |
| LedgerDatabase.SumSides | apps/api/alembic/versions/0010_ledger.py:110-111 | the loop over the lines yields both sums and the count, in whatever order the lines come |
| LedgerDatabase.Database.EntryBalanced | apps/api/alembic/versions/0010_ledger.py:104-123 | the deferred check passes exactly when a row written as posted has at least two lines and equal sides at commit |
| LedgerDatabase.Database.ItemGuard | apps/api/alembic/versions/0010_ledger.py:133-147 | an open item is never deleted and keeps amount, account, entry and ledger |
| LedgerDatabase.Database.RunTransaction | apps/api/alembic/versions/0010_ledger.py:48-148 | a transaction takes effect as a whole exactly when every statement is accepted and every queued check passes; otherwise the state before it is restored |
| LedgerSafety.StepKeepsWellFormed | apps/api/alembic/versions/0010_ledger.py:354-415 | every accepted statement keeps all row checks, unique constraints and references, those between an entry and its reversal included |
| LedgerSafety.PostedLinesFrozenIff | apps/api/alembic/versions/0010_ledger.py:77-103 | an accepted statement leaves the lines of every posted entry alone if and only if it does not update one of them |
| LedgerSafety.BalanceKeptIff | apps/api/alembic/versions/0010_ledger.py:77-123 | an accepted statement on a committed state leaves every posted entry balanced with two lines or more if and only if it does not update the line of a posted entry: losing one line always unbalances |
| LedgerSafety.PostedLinesFrozenForeverIff | apps/api/alembic/versions/0010_ledger.py:48-123 | over any history the lines of the entries posted at its start stay the same if and only if no committed transaction updates one of them; lost lines never come back |
| LedgerSafety.PostedRowsAreForever | apps/api/alembic/versions/0010_ledger.py:52-76 | in every later state of every run a posted entry exists with the same row, and its reversal reference never changes once set |
| LedgerSafety.NumbersNameOneEntryForever | apps/api/alembic/versions/0010_ledger.py:394-401 | the tenant, ledger, fiscal year and number of a posted entry with a fiscal year never name another entry in any later state |
| LedgerSafety.PostedEntriesStayBalanced | apps/api/alembic/versions/0010_ledger.py:52-123 | runs of transactions that move no posted line keep every posted entry balanced with at least two lines, and its lines unchanged |
| LedgerSafety.EveryCommittedStateIsBalanced | apps/api/alembic/versions/0010_ledger.py:52-123 | the same for every state reachable from the empty tables |
| LedgerSafety.PostedInsertNeverCommits | apps/api/alembic/versions/0010_ledger.py:77-123 | a transaction that inserts an entry as posted never commits, whatever else it does |
| LedgerReports.CoherentIff | apps/api/alembic/versions/0010_ledger.py:93-97 | an accepted statement keeps every line on an account of its entry's ledger if and only if it relabels no entry or account that has lines |
| LedgerReports.TrialBalanceIsZero | apps/api/alembic/versions/0010_ledger.py:77-123 | added up account by account over the ledger's own accounts, debit minus credit of any set of its posted entries is zero |
| LedgerReports.EveryTrialBalanceIsZero | apps/api/alembic/versions/0010_ledger.py:77-123 | the same in every reachable state |
| LedgerReports.TrialBalancesAreZeroIff | apps/api/alembic/versions/0010_ledger.py:77-123 | in a committed state every trial balance of every ledger is zero if and only if for each posted entry the lines on accounts outside its ledger cancel out |
| LedgerReports.RelabelKeepsTrialBalancesIff | apps/api/alembic/versions/0010_ledger.py:93-97 | giving an account to another ledger leaves every trial balance at zero if and only if the account nets to zero within each posted entry |
| LedgerReports.RemainderIsConserved | apps/api/alembic/versions/0010_ledger.py:124-147 | across any run an item keeps its claim, and its remainder falls by exactly the settlements inserted in between |
| LedgerReports.SettlementLowersRemainder | apps/api/alembic/versions/0010_ledger.py:700-731 | one accepted settlement lowers the remainder of its own item by its amount and no other |
| LedgerTransactions.NewItemRemainsInFull | apps/api/alembic/versions/0010_ledger.py:700-731 | an item without settlements remains in full |
| LedgerHoles.PostingCommitsIff | apps/api/alembic/versions/0010_ledger.py:104-123 | posting a draft on its own commits if and only if its lines balance |
| LedgerHoles.BookingCommitsIff | apps/api/alembic/versions/0010_ledger.py:48-148 | draft, any lines, post in one transaction: it commits if and only if both rows are storable, every line fits under a free id on an account of the ledger, and there are at least two lines with equal sides; then exactly the entry and its lines are added |
| LedgerHoles.NumberStaysUniqueIff | apps/api/alembic/versions/0010_ledger.py:394-401 | the number of a posted entry names no other entry after any history if and only if the entry has a fiscal year; without one a second booking with the number always commits |
| LedgerHoles.PostedEntryCanLoseALine | apps/api/alembic/versions/0010_ledger.py:83-84 | a reachable history in which a posted entry ends with one line |
| LedgerHoles.RelabelledAccountBreaksTheTrialBalance | apps/api/alembic/versions/0010_ledger.py:93-97 | a reachable history in which a ledger of balanced entries is 100 short |
| LedgerHoles.NullYearNumbersRepeat | apps/api/alembic/versions/0010_ledger.py:394-401 | a reachable history with two posted entries of one number and no fiscal year |
| LedgerStatements.PostedUpdateAcceptedIff | apps/api/alembic/versions/0010_ledger.py:59-70 | an update of a posted entry is accepted if and only if all columns but the reversal reference and the marks are equal and the reference is set at most once, to an entry that exists |
| LedgerStatements.MarkingAsReversedCommits | apps/api/alembic/versions/0010_ledger.py:61-66 | naming an existing entry as the reversal of a posted one commits and changes nothing else |
| LedgerStatements.EntryInsertAcceptedIff | apps/api/alembic/versions/0010_ledger.py:354-415 | a new entry is accepted exactly when number and status agree, a reversal names an entry, references exist and none of the three unique keys is taken |
| LedgerStatements.DraftUpdateAcceptedIff | apps/api/alembic/versions/0010_ledger.py:354-415 | the same holds for the new columns of a draft, whichever change |
| LedgerStatements.EntryDeleteAcceptedIff | apps/api/alembic/versions/0010_ledger.py:55-60 | an entry is deleted exactly when it is a draft that no other entry, item or settlement names |
| LedgerStatements.LineInsertAcceptedIff | apps/api/alembic/versions/0010_ledger.py:77-103 | a new line is accepted exactly when one side is positive and the other zero, it books on a draft, and its account belongs to the ledger of that draft |
| LedgerStatements.LineUpdateAcceptedIff | apps/api/alembic/versions/0010_ledger.py:77-103 | a changed line is judged by its new columns alone, whatever entry it stood in |
| LedgerStatements.LineDeleteAcceptedIff | apps/api/alembic/versions/0010_ledger.py:83-92 | a line is deleted exactly when its entry is a draft |
| LedgerStatements.ItemUpdateAcceptedIff | apps/api/alembic/versions/0010_ledger.py:133-147 | an update of an open item is accepted exactly when ledger, account, entry and amount stay |
| LedgerStatements.ItemAcceptedIff | apps/api/alembic/versions/0010_ledger.py:672-699 | an item is accepted exactly with a positive amount, on an account and an entry that exist and have none yet, and never deleted |
| LedgerStatements.SettlementAcceptedIff | apps/api/alembic/versions/0010_ledger.py:124-132 | a settlement is accepted exactly when it is new, not zero and names rows that exist; it is never changed or deleted |
| LedgerStatements.NoRowNoChange | apps/api/alembic/versions/0010_ledger.py:73-76 | an update or delete that finds no row is accepted, changes nothing and queues no check |
| LedgerStatements.EntryRemoved | apps/api/alembic/versions/0010_ledger.py:577-582 | a deleted entry takes exactly its own lines along and nothing else |
| LedgerTransactions.TransactionIs | apps/api/alembic/versions/0010_ledger.py:48-148 | a transaction commits if and only if each statement is accepted in the state the earlier ones left and at the end every entry written as posted has two lines whose sides cancel out; then the last state is kept, otherwise the first |
| LedgerTransactions.RefusalUndoesAll | apps/api/alembic/versions/0010_ledger.py:48-148 | one refused statement undoes all statements before it and those behind it do not run |
| Sums.SumByGroup | apps/api/alembic/versions/0010_ledger.py:110-111 | summing group by group gives the sum over all rows, for any key and any groups that catch every row |
| Periods.PeriodTable.Check | apps/api/alembic/versions/0005_contracts.py:293-310 | the row by row constraint check accepts exactly ordered periods that overlap no other of the key |
| Periods.PeriodTable.Execute | apps/api/alembic/versions/0005_contracts.py:293-310 | a statement is accepted exactly when the constraints hold, and otherwise changes nothing |
| Periods.OverlapIsSharedDay | apps/api/alembic/versions/0005_contracts.py:296-296 | ranges overlap as compared by their ends, open ones included, exactly when some day lies in both |
| Periods.InsertAcceptedIff | apps/api/alembic/versions/0005_contracts.py:293-310 | a new period is accepted exactly when it is ordered and none of its days is taken |
| Periods.UpdateAcceptedIff | apps/api/alembic/versions/0005_contracts.py:293-310 | a changed period is accepted exactly when it is ordered and none of its days belongs to another period of its key |
| Periods.FitsOutright | apps/api/alembic/versions/0005_contracts.py:293-310 | the constraints compared date by date: both ends count and an open end is later than any day |
| Periods.InsertTakesItsDays | apps/api/alembic/versions/0005_contracts.py:293-310 | after an accepted insert exactly the days of the new period are covered besides those before |
| Periods.UpdateMovesItsDays | apps/api/alembic/versions/0005_contracts.py:293-310 | an accepted update frees the days of the old row, takes those of the new one and leaves every other day of every key |
| Periods.DeleteFreesItsDays | apps/api/alembic/versions/0005_contracts.py:293-310 | a delete frees exactly the days of its row |
| Periods.RowsAfter | apps/api/alembic/versions/0005_contracts.py:293-310 | a refused statement changes nothing, an accepted one stores or removes its own row and no other |
| Periods.OneOwnerPerDay | apps/api/alembic/versions/0005_contracts.py:428-438 | after any run every day belongs to at most one period of a key |
| Periods.DaysAreCountedOnce | apps/api/alembic/versions/0005_contracts.py:293-310 | in any window the covered days of all periods of a key add up to the number of covered days, never more than the window |
| IcuArguments.ScanFrom | scripts/check_i18n_usage.py:56-89 | the scanning loop returns the names and the end position of the recursive scan, on every text and from every position |
| IcuArguments.ScanBranches | scripts/check_i18n_usage.py:73-81 | the same for the loop over selector and body pairs |
| IcuArguments.ScanClose | scripts/check_i18n_usage.py:82-86 | the same for the depth counting loop |
| IcuArguments.ArgumentNames | scripts/check_i18n_usage.py:52-92 | ends on every text and returns the scanned names |
| IcuMessages.ParseOverQuotedText | scripts/check_i18n_usage.py:59-62 | quoted text is skipped as a whole, doubled apostrophes included where a brace, an apostrophe or the end follows |
| IcuMessages.BranchesOverCases | scripts/check_i18n_usage.py:73-81 | printed branches give exactly the names of their bodies and end at the argument's own brace |
| IcuMessages.PrintedNamesAreFound | scripts/check_i18n_usage.py:52-92 | scanning the printed form of a message tree finds exactly its argument names, when its names, quoted texts, styles and choices are safe |
| IcuLimits.ScannerIsRightIff | scripts/check_i18n_usage.py:52-92 | for any names, quoted texts, styles and choices: every message whose doubtful texts are among them is scanned to exactly its names if and only if the names start with an ASCII letter or underscore, the quoted texts start with a brace and have apostrophes only before a brace, an apostrophe or the end, the braces of the styles, quoted ones included, balance, and the choices have no argument |
| IcuQuotes.QuoteIsSkippedIff | scripts/check_i18n_usage.py:59-62 | a quoted text leaves the names of every message after it as they are if and only if it starts with a brace and each of its apostrophes stands before a brace, an apostrophe or the end |
| IcuQuotes.HashQuoteHidesName | scripts/check_i18n_usage.py:59-62 | in a plural any quoted text that starts with no brace hides an argument behind it |
| IcuStyles.StyleClosesIff | scripts/check_i18n_usage.py:82-86 | the scanner leaves an argument behind its own brace, whatever follows, if and only if all braces of its style balance |
| IcuLimits.QuotedBraceInStyleHidesName | scripts/check_i18n_usage.py:82-86 | a valid message with two arguments of which one is reported |
| IcuLimits.QuotedHashHidesName | scripts/check_i18n_usage.py:59-62 | a valid plural with a quoted number sign whose body argument is not reported |
| IcuLimits.QuotedHashLeaksName | scripts/check_i18n_usage.py:59-62 | a valid plural for which a quoted name is reported |
| IcuLimits.ChoiceHidesName | scripts/check_i18n_usage.py:72-86 | a valid choice whose inner argument is not reported |
| IcuMessages.DoubledApostropheLeaksNames | scripts/check_i18n_usage.py:59-62 | a message that is one quoted text for which a name is reported |
| IcuPatterns.ArgumentIsReported | scripts/check_i18n_usage.py:66-70 | a braced word of ASCII letters, digits and underscores that starts with no digit is reported as it stands |
| IcuPatterns.NameEndsWithWord | scripts/check_i18n_usage.py:66-70 | the name ends with the first character that is none of these |
| IcuPatterns.BranchesAreRead | scripts/check_i18n_usage.py:72-81 | behind each of the three branching keywords the argument of a branch is reported |
| IcuPatterns.OtherBracesAreSkipped | scripts/check_i18n_usage.py:82-86 | behind any other keyword the braces are skipped |
| CallScanner.MatchingEnd | scripts/check_i18n_usage.py:126-154 | the stack loop with its recursion into template expressions returns the position of the recursive definition |
| CallScanner.SplitTopLevel | scripts/check_i18n_usage.py:95-123 | the splitting loop returns the pieces of the recursive definition |
| CallParsing.MatchOverTokens | scripts/check_i18n_usage.py:126-154 | the matcher passes over printed tokens without changing its stack, strings, groups and nested template literals included |
| CallParsing.OwnBracketIsFound | scripts/check_i18n_usage.py:126-154 | in any surrounding text the matcher returns the bracket that closes the call |
| CallParsing.CallIsReadBackIff | scripts/check_i18n_usage.py:257-259 | bracket matching always gives the text between the call's own brackets; splitting it returns exactly the printed arguments in order, without a blank last one, if and only if no template literal nested in an expression shows the splitter a comma outside brackets |
| CallParsing.NestedTemplateIsSplit | scripts/check_i18n_usage.py:104-109 | one argument with nested template literals that is cut in two |
| CallParsing.BracketsAreOnePiece | scripts/check_i18n_usage.py:112-117 | a readable text between any of the three pairs of brackets is one piece, whatever commas it holds |
| CallParsing.UnclosedRunsOut | scripts/check_i18n_usage.py:152-154 | a call that is not closed ends at the last character |
| CallParsing.OtherCloserIsIgnored | scripts/check_i18n_usage.py:147-151 | a closing bracket of another kind does not end the call |
| CallParsing.OpenQuoteHoldsCommas | scripts/check_i18n_usage.py:104-111 | behind an open quote of any of the three kinds no comma splits |
| CallParsing.StrayCloserHoldsCommas | scripts/check_i18n_usage.py:112-117 | behind a closing bracket too many no comma splits |
| InstituteList.CleanIsField | scripts/update_fints_institutes.py:102-104 | a cleaned cell is one trimmed line without separator and equals sign |
| InstituteList.ReadList | scripts/update_fints_institutes.py:174-185 | the reading loop keeps the parsable lines in order |
| InstituteList.ReadRowsAreWritable | scripts/update_fints_institutes.py:174-185 | every row read from any text has a bank code, trimmed columns without separator, and its own line |
| InstituteList.RenderedRowIsParsed | scripts/update_fints_institutes.py:75-79 | a rendered row is parsed back column by column |
| InstituteList.WrittenRowsAreReadBack | scripts/update_fints_institutes.py:279-284 | a written file is read back as the same rows in the same order, rows read before on the identical line |
| InstituteList.NewRowRoundTripIff | scripts/update_fints_institutes.py:75-79 | a new row comes back from the file if and only if all its columns are fields |
| InstituteColumns.LineIsRowIff | scripts/update_fints_institutes.py:174-185 | a line is a row if and only if a bank code stands before its first equals sign and at least eight columns behind it, and each column is the trimmed text at its place |
| InstituteColumns.NewLineIs | scripts/update_fints_institutes.py:75-79 | a new row is written with its columns in the order of the file, a bar behind each |
| InstituteColumns.SeparatorsAreReplaced | scripts/update_fints_institutes.py:102-104 | a bar in a cell becomes a slash and an equals sign parts two words |
| InstituteColumns.StrayBytesAreRepaired | scripts/update_fints_institutes.py:93-99 | stray bytes become their Windows-1252 characters, five of them vanish |
| InstituteSource.ReadDk | scripts/update_fints_institutes.py:137-171 | the loops over rows and groups return one entry per bank code in the order of first rows |
| InstituteSource.EntriesAreFirstChoices | scripts/update_fints_institutes.py:164-171 | bank codes are unique, every valid row is represented, and the entry of a code is its first row with a URL, or its first row when none has one |
| InstituteSource.DkListIsClean | scripts/update_fints_institutes.py:152-163 | whatever the cells hold, every entry has a bank code, fields in all columns but the BIC, and no URL or an https one |
| InstituteSource.HttpsSurvives | scripts/update_fints_institutes.py:93-104 | repairing and cleaning an https URL leaves its first eight characters alone |
| InstituteSource.EntryHasUrlIff | scripts/update_fints_institutes.py:148-168 | an entry has a URL if and only if some row of its bank code names an https address |
| InstituteColumns.RowIsDecoded | scripts/update_fints_institutes.py:139-163 | each column of a table row ends up in the field of its name, the BIC in upper case, the version without its prefix, the URL only if it is https |
| InstituteColumns.CodesAreInOrder | scripts/update_fints_institutes.py:164-170 | of two bank codes the one whose first row comes earlier stands in front |
| InstituteMerge.IndexByBic | scripts/update_fints_institutes.py:202-205 | the index names the first entry of each valid BIC |
| InstituteMerge.MergeRow | scripts/update_fints_institutes.py:214-244 | one step of the merge loop gives the merged row and counts a lost URL |
| InstituteMerge.Merge | scripts/update_fints_institutes.py:195-272 | the merged rows are the updated and added rows in stable order, and refusal depends on the list size and the lost share |
| InstituteMerge.SortIsStable | scripts/update_fints_institutes.py:252-252 | the sort is a sorted rearrangement that keeps the order of rows with one bank code |
| InstituteColumns.SourceIs | scripts/update_fints_institutes.py:214-218 | a row takes the entry of its bank code, and only without one, when asked, the first entry with its valid BIC |
| InstituteColumns.NoSourceIff | scripts/update_fints_institutes.py:215-222 | a row has no entry exactly when the list names neither its bank code nor, where asked, its valid BIC |
| InstituteColumns.MergedColumns | scripts/update_fints_institutes.py:219-244 | a merged row has the address columns of its entry, or all four of its own where the entry would remove its URL and clearing is not allowed; an empty BIC is filled; the line is kept exactly when no column changes; a URL counts as lost exactly when the merged row has none any more |
| InstituteColumns.AddedRowsAre | scripts/update_fints_institutes.py:246-250 | the added rows are those of the entries whose bank code no row has, column by column |
| InstituteColumns.LeqIs | scripts/update_fints_institutes.py:252-252 | bank codes are ordered by the first different character, a prefix first |
| InstituteColumns.MergedRowsAreAllThere | scripts/update_fints_institutes.py:211-252 | the result holds every merged and every added row, each as often as before |
| InstituteRules.MergeIsIdempotent | scripts/update_fints_institutes.py:195-252 | merging the same list again under the same settings returns the same rows in the same order |
| InstituteRules.UrlAccount | scripts/update_fints_institutes.py:211-253 | connectable rows after plus lost ones equal connectable rows before plus gained and added ones |
| InstituteRules.UrlsAreNotLostSilently | scripts/update_fints_institutes.py:225-271 | a merge not refused keeps nine tenths of the connectable rows; without clearing none is lost and none is refused for it |
| InstituteRules.MergedRowKeepsMasterData | scripts/update_fints_institutes.py:219-244 | code, name, city, check digit and a present BIC survive, the URL is the old one or one of the list, a row without source stays itself, and a changed row loses its raw line |
| InstituteRules.EveryUrlIsOldOrHttps | scripts/update_fints_institutes.py:148-250 | every URL of the merged list, added rows included, stood in the old row of that bank code or is an https address of the DK list |
| InstituteRules.MergedFileIsReadBackIff | scripts/update_fints_institutes.py:279-284 | reading, merging, writing and reading again returns the merged rows, untouched ones on their very lines, if and only if every BIC taken from the DK list is a field |
| InstituteRules.SecondRunChangesNothing | scripts/update_fints_institutes.py:195-284 | when every BIC taken over is a field, running the script again on the written file with the same table leaves the rows and the file as they are |
| ImportWalk.Inspect | scripts/check_client_imports.py:115-131 | the loop over the imports collects the findings and the server targets in order |
| ImportWalk.CheckApp | scripts/check_client_imports.py:89-132 | the walk ends and reports the findings of exactly the reachable server modules, each inspected once |
| ImportWalk.FindingsAreExact | scripts/check_client_imports.py:108-131 | a finding is reported if and only if it is a used name of a client import in a reachable server module |
| ImportWalk.InspectedModulesIff | scripts/check_client_imports.py:89-132 | a module is inspected if and only if it is no client module and is a route file or is imported, not type-only, by an inspected module |
| ImportWalk.FindingsAreCounted | scripts/check_client_imports.py:108-131 | a finding is reported exactly as often as its import lists the name |
| ImportWalk.FindingsAreNotRepeated | scripts/check_client_imports.py:108-131 | when every import lists a name once, no finding comes twice |
| Handbook.CollectItems | scripts/build_handbook.py:76-84 | the list loop returns items with their continuation lines, and where the list ends |
| Handbook.ParseBlock | scripts/build_handbook.py:44-96 | each branch with its inner loop returns the block and the next line of the step function |
| Handbook.Parse | scripts/build_handbook.py:36-97 | the outer loop ends and returns the blocks of all steps |
| HandbookDocuments.ParseUndoesPrint | scripts/build_handbook.py:36-97 | the text of any document of headings, code, tables, quotes, lists and paragraphs parses to exactly its blocks |
| HandbookLayouts.HandwrittenDocumentIsRead | scripts/build_handbook.py:36-97 | any document written with several lines per paragraph, quote and item, any indentation, markers, fences and rulers is read as its blocks, lines of one text joined by blanks |
| HandbookLayouts.OpenFenceTakesTheRest | scripts/build_handbook.py:44-49 | a fence that is never closed takes the rest of the document |
| HandbookLayouts.LoneBarIsProse | scripts/build_handbook.py:86-95 | a line that starts with a bar but has no ruler below is a paragraph alone |
| HandbookLayouts.NoHeadingIsProse | scripts/build_handbook.py:50-50 | seven number signs, or none before a blank, make no heading |
| HandbookLayouts.LineThatEnds | scripts/build_handbook.py:55-96 | which first characters of a line end the paragraph, table, quote or list before it |
| HandbookLayouts.MarkerNeedsBlank | scripts/build_handbook.py:22-22 | a list marker without a blank behind it makes no item |
| HandbookLayouts.RulerIff | scripts/build_handbook.py:55-55 | a ruler is exactly one or more bars, dashes, colons and blanks between two bars, blanks around them aside |
| HandbookDocuments.RowLineCells | scripts/build_handbook.py:32-33 | the cells of a printed table row are read back, empty ones included |
| HandbookDocuments.RunsPartitionTheText | scripts/build_handbook.py:39-96 | the parser takes runs that are the lines of the text in order; a run that starts with a blank line is that line alone and gives nothing, every other run gives one block, and the document is the blocks of the runs, each parsed by itself |
| HandbookDocuments.BlockOfRun | scripts/build_handbook.py:39-96 | the block at a line depends only on the lines it takes |
| Catalogue.FlattenMembers | scripts/check_i18n.py:24-37 | the recursive loop fills the flattened map, the later of two equal keys winning |
| Catalogue.Resolve | scripts/check_i18n_usage.py:175-181 | the lookup loop walks the parts of the path, a null value counting as missing |
| CataloguePaths.WalkFollowsMembers | scripts/check_i18n_usage.py:175-181 | a lookup finds exactly what its parts lead to from member to member, objects included |
| Catalogue.FlattenAgreesWithWalkIff | scripts/check_i18n.py:24-37 | for catalogues without dots in their keys, or whose ends are filed under different keys, flattened keys and lookups agree on every path if and only if no key has a dot and no empty key hides an object |
| Catalogue.DottedKeysDisagree | scripts/check_i18n.py:29-29 | a key with a dot that flattens to a path no lookup reaches |
| Catalogue.CheckApp | scripts/check_i18n.py:55-88 | the reported findings are exactly the empty, non-string, dashed and one-sided entries |
| Catalogue.SilentCheckMeansSameTexts | scripts/check_i18n.py:65-87 | when flattened keys and lookups agree and nothing is reported, a path leads to a non-empty text in one language exactly when it does in the other |
| CataloguePaths.DashIsReportedIff | scripts/check_i18n.py:74-80 | a dash is reported exactly when it is an en dash or an em dash in the German text a path leads to |
| CataloguePaths.ValueIsReportedIff | scripts/check_i18n.py:65-71 | a value is reported as empty exactly for an empty text, null and an empty object, and as no text for any other end that is none |
| Signature.SignaturePad.PointerDown | packages/ui/src/signature-canvas.ts:141-152 | an accepted press adds a fresh stroke object that is both current and last, and touches no other stroke; an ignored one changes nothing |
| Signature.SignaturePad.PointerMove | packages/ui/src/signature-canvas.ts:153-158 | a move extends only the open stroke, through the shared object |
| Signature.SignaturePad.PointerUp | packages/ui/src/signature-canvas.ts:159-169 | a release ends the open stroke, doubles a single point and keeps the list of stroke objects |
| Signature.SignaturePad.UndoLast | packages/ui/src/signature-canvas.ts:59-64 | undo closes and removes the last stroke and returns that object |
| Signature.SignaturePad.ClearAll | packages/ui/src/signature-canvas.ts:65-69 | clear closes and removes everything |
| Signature.RunIsGood | packages/ui/src/signature-canvas.ts:40-79 | after any events all coordinates lie in the unit box, no stroke is empty, and a stroke is open only while drawing |
| Signature.UndoTakesBackAGesture | packages/ui/src/signature-canvas.ts:59-64 | undo after a whole gesture of any length restores the strokes |
| Signature.ClosedStrokesAreLinesIff | packages/ui/src/signature-canvas.ts:54-58 | closed strokes keep at least two points if and only if the event is not a press onto an open single point |
| Signature.NearestPointIsStored | packages/ui/src/signature-canvas.ts:77-79 | a point inside the box is stored as it is, any other as the nearest point of the box |
| Signature.GestureIsStored | packages/ui/src/signature-canvas.ts:141-169 | press, moves and release store one stroke with their points in order, a single point twice, and only another mouse button draws nothing |
| Signature.StrokesAfterCommands | packages/ui/src/signature-canvas.ts:59-69 | undo takes off the last stroke, clear takes off all, neither leaves one open or ends the gesture |
| Navigation.NetworkFirst.Handle | apps/web-crm/public/sw.js:30-51 | each callback changes the shared variables as its event prescribes |
| Navigation.ResolvesAtMostOnce | apps/web-crm/public/sw.js:32-37 | in every interleaving the promise is resolved at most once and the answer never changes |
| Navigation.NetworkInTimeWins | apps/web-crm/public/sw.js:41-45 | a network answer while the timer is armed is the answer of the navigation |
| Navigation.QuietMeansAnsweredIff | apps/web-crm/public/sw.js:38-49 | when nothing can happen any more the navigation is answered if and only if the network or one cache lookup answered |
| Navigation.AnswerIsTheFirst | apps/web-crm/public/sw.js:32-49 | in every interleaving the answer is that of the first event that brings one, the offline page exactly where that lookup finds it |
| Navigation.AtMostFourEvents | apps/web-crm/public/sw.js:38-49 | every navigation comes to rest after four events at most |

## Left out

- Concurrency of database sessions, isolation levels, TRUNCATE, savepoints and switching constraints to immediate: transactions run one after another and checks run at commit.
- Updates that rewrite a primary key: every row keeps its surrogate key.
- Columns no guard reads, and foreign keys to tables outside the ledger group: one text per row stands for them; the ledger table itself and the account number are not modelled.
- Guards added after revision 0010 (period lock, stricter open item guard, number counter): the tables are modelled as that revision leaves them; revision 0346 keeps the rule of the line guard.
- LedgerSafety.PostedEntriesStayBalanced: holds for runs that move no posted line, because the guard allows the move; `BalanceKeptIff` and `PostedLinesFrozenIff` give the exact condition for each statement.
- LedgerReports.EveryTrialBalanceIsZero: asks in addition that no entry or account with lines changes its ledger, because no guard refuses it; `CoherentIff` says when a statement does that, and `TrialBalancesAreZeroIff` and `RelabelKeepsTrialBalancesIff` when it matters.
- Contract checks on ownership, title transfer and the due day: one row each, no state.
- Characters beyond ASCII in the classes of the regular expressions: they are arbitrary fixed sets, so every proof holds for any choice of them.
- IcuLimits.ScannerIsRightIff: a choice is covered when its braces, quoted ones included, balance; without that the scan of its text can go right or wrong by accident. Keywords in other than lower case, which some formatters accept, are not printed.
- The characters that start quoted text beside braces and the number sign of a plural differ between formatters (`<` where tags are read): they are an arbitrary fixed set, and `ScannerIsRightIff` holds for any choice of it.
- CallParsing.CallIsReadBackIff: the exposed text of a nested template literal holds no quote and its brackets balance, and a string inside an expression holds no bare backtick; with them the splitter's depth and quote drift, which is not modelled. Regular expression literals and comments in arguments are not printed.
- Collecting translator bindings, literal keys and template prefixes: regular expressions decide them.
- The encoding and the CSV layer of the DK file, the lookup of its columns by header, and warnings and report lines: the rows arrive as cells with the positions of the columns.
- InstituteMerge.Merge: the lost share is compared exactly, not through a floating point quotient; both agree for any list of fewer than ten to the fifteenth rows.
- InstituteRules.SecondRunChangesNothing: asks that every BIC taken over is a field, which `MergedFileIsReadBackIff` shows to be the condition for the file to hold what was merged.
- Comment and blank lines of the institute file: the reader drops them, so they are not in the written file.
- ImportWalk.CheckApp: the usage test of a name and the resolution of a specifier are given, since both are regular expressions and file lookups.
- The heading id of the handbook (a function of its title) and the chapter list.
- Catalogue.FlattenAgreesWithWalkIff: catalogues in which a key has a dot and two ends are filed under one dotted key, since the one can mask the other.
- Missing or invalid catalogue files and the order of the findings.
- Canvas drawing and pixel ratios; coordinates are real numbers, never NaN.
- Installation and activation of the service worker and its other routes: branches without shared state.
