# Pharmacy report extraction, modelled in Dafny

This project models the parts of a pharmacy back-office system that turn
reports into numbers and lists:

- the daily HTML report extractor (`app/parser.py`): `clean_number`,
  `clean_int`, the 45-key default record, `find_table_by_header`, and the
  five section loops (Sales Summary with basket metrics, Cash-up
  Reconciliation, Stock Trading Account, Dispensary Summary, Turnover
  Summary);
- the older line-based extractor (`scripts/parser1.py`): its own
  `clean_number`, the stripped non-blank lines, `extract_value`, the
  positional Sales Summary block with its all-or-nothing `except`, and the
  42-key result;
- the PDF stock-sales breakdown script (`Stock/Daily_extraction.py`): the
  header/exclusion/rule-line filter and the ten-group line pattern, turned
  into records;
- the stock-levels card (`src/components/StockLevelsCard.jsx`): the
  department-code classifier, the category/department filter, the stable
  sort by days of stock or stock value, the sort toggle, the grouping of
  departments by category, the days-of-stock colours, and the CSV export;
- the CSV service's row utilities (`stock_service/services/csv_parser.py`):
  `filter_rows` and `get_unique_values`.

Modules and files:

| file | module | models |
|---|---|---|
| `wrappers.dfy` | `Wrappers` | `Option`, `Result` and the Python exceptions raised |
| `text.dfy` | `Text` | `str.strip`, `replace`, `in`, `startswith`, `upper`/`lower`, `re.sub(r'\D', '')`, `split`/`join` |
| `pyfloat.dfy` | `PyFloat` | `float()` on text: sign, decimal digits, point, exponent |
| `sequences.dfy` | `Sequences` | order-preserving filter and group-into-sets |
| `report_fields.dfy` | `ReportFields` | the record's fields, keys and defaults; sequences of assignments |
| `number_cleaning.dfy` | `NumberCleaning` | `clean_number` and `clean_int` of `app/parser.py` |
| `html_document.dfy` | `HtmlDocument` | the parsed document and `find_table_by_header` |
| `daily_report.dfy` | `DailyReport` | `parse_html_daily` of `app/parser.py` |
| `legacy_parser.dfy` | `LegacyParser` | `scripts/parser1.py` |
| `stock_pdf.dfy` | `StockPdf` | `Stock/Daily_extraction.py` |
| `stock_levels.dfy` | `StockLevels` | the stock-levels card |
| `csv_export.dfy` | `CsvExport` | the card's `exportToCSV` |
| `csv_rows.dfy` | `CsvRows` | `filter_rows` and `get_unique_values` |

The parsed HTML document is an arena of tags in document order; each tag
carries its name, its stripped text, its parent index and, for a table, the
rows `find_all('tr')` gives with each cell's stripped text and `colspan`.
A record is a map from a field datatype (one constructor per dictionary
key, with `ReportFields.Key` giving the Python key) to a number that is an
int or a float. A section loop is specified as the sequence of assignments
its rows perform, and the loops themselves are methods with `while`/`for`
loops proved equal to those sequences applied to the record.

The model follows the code in these details:

- the default dictionary of `app/parser.py` has 45 keys, three of them the
  cash-up fields; `scripts/parser1.py` returns 42 keys and has no cash-up
  fields;
- in `scripts/parser1.py` a field is found by a line containing both the
  section name and the caption, so section and caption must share a line;
- the except branch of the positional Sales Summary block assigns the int
  `0`, not `0.0`, to every field, and the line 25 below the heading is
  never read;
- `scripts/parser1.py` removes every `-`, so signs are lost, and `(1.00)`
  and `12%` raise inside `float()` (caught as 0.0 by `extract_value`, and
  zeroing the whole block in the Sales Summary);
- on the card, choosing `'other'` filters by a department literally named
  `other` (it is not a key of `departmentCategories`), and a department
  whose name equals a category key cannot be selected by name;
- in the CSV export only values with a comma are quoted, so a quote or a
  newline in a value without a comma is written as it is, and a newline
  then splits the row;
- in `filter_rows` a string condition never matches a cell that `float()`
  accepts, because the cell has already become a number;
- in the Sales Summary loop a basket row of three cells or more is read
  only when its label cell has colspan `2`; the reading the code evidently
  intends, cell 2 otherwise, is modelled beside it (see Findings).

## Model

| member | source | states |
|---|---|---|
| PyFloat.ParseDecimalText | app/parser.py:24 | `float()` of a pointed decimal numeral `ip.fp` (either side may be empty, not both) reads its exact value |
| PyFloat.ParseDigits | app/parser.py:24 | `float()` of a numeral without a point, a digit string, reads the number it spells |
| PyFloat.FloatTextEnd | app/parser.py:19-24 | a text `float()` accepts never ends in `-`, `%` or `)`, so a numeral reaches the plain read of line 24 |
| PyFloat.ParseNegativeDecimalText | app/parser.py:24 | `float()` of a minus sign and a decimal numeral reads the negated value |
| PyFloat.NoMinusNonNegative | scripts/parser1.py:8 | `float()` of a text without any `-` is never negative |
| NumberCleaning.CleanNumberNoValue | app/parser.py:5-13 | the empty text, and a text whose cleaning leaves nothing, `-` or `.00`, gives 0.0 |
| NumberCleaning.CleanNumberUnparsable | app/parser.py:19-27 | when the text `float()` is given, after a trailing hyphen, inside parentheses or plain, is no numeral, the result is 0.0 instead of an exception |
| NumberCleaning.CleanNumberPlain | app/parser.py:8-24 | any text whose cleaning `float()` reads (`123`, `-5`, `R1,234.50`) gives that value |
| NumberCleaning.CleanNumberPercent | app/parser.py:15-24 | a text cleaning to a numeral and `%` (`26 %`) gives the numeral's value: the `%` is dropped and nothing is divided by 100 |
| NumberCleaning.CleanNumberTrailingMinus | app/parser.py:15-21 | a text cleaning to a numeral and `-`, or `-%` (`123-`), gives the numeral's value negated |
| NumberCleaning.CleanNumberParenthesized | app/parser.py:15-23 | a text cleaning to a numeral in parentheses, optionally followed by `%` (`(5)`), gives the numeral's value negated |
| NumberCleaning.ZeroSentinel | app/parser.py:12-13 | the only numeral among the no-value sentinels is `.00`, whose value is 0 anyway |
| NumberCleaning.CleanNumberIgnoresMark | app/parser.py:8 | an `R` or `,` anywhere in the text does not change the result |
| NumberCleaning.CleanNumberIgnoresSpace | app/parser.py:8-10 | a space anywhere in the text does not change the result |
| NumberCleaning.CleanIntDigits | app/parser.py:29-40 | `clean_int` is the number the text's digits spell, 0 when there are none |
| NumberCleaning.CleanIntIgnoresNonDigit | app/parser.py:33 | a non-digit anywhere (sign, separator, letter) does not change the result |
| NumberCleaning.CleanIntOfDigits | app/parser.py:33-37 | a digit string reads as its decimal value |
| ReportFields.AllFieldsComplete | app/parser.py:48-83 | every field is one of the 45 default keys |
| ReportFields.Defaults | app/parser.py:48-83 | the starting dictionary has exactly the 45 keys, the transaction counts at int 0 and every other field at float 0.0 |
| ReportFields.ApplyLastWrite | app/parser.py:99-337 | after a run of dictionary assignments each key holds its last assigned value or its earlier value, and no key is added |
| ReportFields.ApplyConfined | app/parser.py:99-337 | assignments keep the record complete; assignments of one section leave the other sections' fields unchanged |
| ReportFields.ApplyAgrees | app/parser.py:99-337 | what a section's assignments leave in its fields depends only on the assignments and the fields' earlier values |
| HtmlDocument.FindBold | app/parser.py:88 | `soup.find` gives the first `b` tag from the start index on whose text contains the heading, or none when there is none |
| HtmlDocument.NearestTable | app/parser.py:92-95 | the parent walk stops at a table on the tag's ancestor path, and every tag passed before it is not a table |
| HtmlDocument.FindTableByHeader | app/parser.py:86-96 | the method with the parent-walking loop returns the table the heading lookup specifies |
| HtmlDocument.TableOfFound | app/parser.py:86-96 | a located table is an ancestor of a heading tag with no heading tag before it |
| HtmlDocument.TableOfMissing | app/parser.py:89-96 | no table is located when no tag is a heading tag or no tag on its path is a table |
| DailyReport.SalesLabel | app/parser.py:137-169 | a recognised Sales Summary label selects a transaction-count field for cell 1 and a value field for cell 2 |
| DailyReport.BasketCellAsWrittenIgnoresCellTwo | app/parser.py:104-130 | as written, a basket row whose label cell has no colspan `2` assigns nothing, at any length |
| DailyReport.BasketCellAsWrittenCounterexample | app/parser.py:104-130 | the three-cell basket row label, value, value without colspan is ignored |
| DailyReport.BasketCellLayouts | app/parser.py:108-116 | as intended, cell 1 is read under colspan `2` and cell 2 otherwise; under colspan `2` this agrees with the code |
| DailyReport.SalesRowCorrection | app/parser.py:104-130 | the intended row reading differs from the code's exactly on basket rows of three or more cells without colspan `2`, where the code assigns nothing and the intended reading assigns cell 2's value |
| DailyReport.SalesRowWrites | app/parser.py:102-169 | a Sales Summary row, as the code reads it, assigns only Sales Summary fields: a count and a value for a labelled row of three cells, one basket metric for a basket row read from the cell the code picks |
| DailyReport.CashUpRowWrites | app/parser.py:177-190 | a cash-up row of at least three cells assigns the value of cell 2 to its labelled field |
| DailyReport.StockDataWrites | app/parser.py:214-235 | a stock data row assigns the value of cell 1 to its labelled field |
| DailyReport.DispensaryDataWrites | app/parser.py:267-289 | a dispensary data row assigns cell 1, read with `clean_int` for the number of scripts |
| DailyReport.TurnoverDataWrites | app/parser.py:317-335 | a turnover data row assigns the value of cell 1 to its labelled field |
| DailyReport.HeaderRowCells | app/parser.py:200-209 | the column-header row is one with at least three cells reading `description`, `today`, `this month` in any case |
| DailyReport.Step | app/parser.py:202-335 | the Sales Summary and Cash-up loops have no header gate: an iteration never changes their phase |
| DailyReport.RowsWithin | app/parser.py:99-337 | every assignment of a section's loop is to a field of that section |
| DailyReport.WalkSalesSummary | app/parser.py:100-169 | the Sales Summary loop applies the assignments its rows specify, with the basket cell the code reads |
| DailyReport.ReadSalesRow | app/parser.py:103-169 | one Sales Summary iteration applies that row's assignments, a basket row of three or more cells only under colspan `2` |
| DailyReport.WalkCashUp | app/parser.py:175-190 | the Cash-up loop applies the assignments its rows specify |
| DailyReport.ReadCashUpRow | app/parser.py:178-190 | one Cash-up iteration applies that row's assignments |
| DailyReport.WalkStockTrading | app/parser.py:196-235 | the Stock Trading loop applies the rows' assignments, with nothing read before the header row |
| DailyReport.ReadStockRow | app/parser.py:214-235 | one Stock Trading data iteration applies that row's assignments |
| DailyReport.WalkDispensary | app/parser.py:242-289 | the Dispensary loop applies the rows' assignments, the header row unlocking the walk |
| DailyReport.ReadDispensaryRow | app/parser.py:267-289 | one Dispensary data iteration applies that row's assignments |
| DailyReport.WalkTurnoverSummary | app/parser.py:295-335 | the Turnover loop applies the rows' assignments, a colspan title row first skipped |
| DailyReport.ReadTurnoverRow | app/parser.py:317-335 | one Turnover data iteration applies that row's assignments |
| DailyReport.SectionWrites | app/parser.py:99-337 | a section's assignments are all to fields of that section |
| DailyReport.RunSection | app/parser.py:99-337 | locating a section's table and walking it applies the section's assignments |
| DailyReport.ParseHtmlDaily | app/parser.py:42-340 | the whole parse equals the defaults followed by the five sections, and has exactly the 45 keys |
| DailyReport.ParseComplete | app/parser.py:48-340 | every field is present in the result: no key is lost or added |
| DailyReport.SectionIsolation | app/parser.py:99-337 | a field's final value is what its own section's assignments alone make of the defaults |
| DailyReport.LastWriteWins | app/parser.py:99-337 | a field ends with the value of the last assignment to it, and keeps its default when there is none |
| DailyReport.MissingSection | app/parser.py:99-337 | a section whose heading is not found leaves its own fields at their defaults |
| DailyReport.NoHeaderNoWrites | app/parser.py:202-265 | until the column-header row, a gated section's loop assigns nothing |
| DailyReport.HeaderRowNotData | app/parser.py:252-289 | the header row, read as data by the dispensary and turnover loops, assigns nothing |
| DailyReport.ShortRowSkipped | app/parser.py:203-319 | a row without cells is passed over, and after the header so is a row of one cell |
| DailyReport.GateOpensAtHeader | app/parser.py:202-315 | with no earlier header row, the rows up to the header assign nothing and the rows after it are read as data |
| DailyReport.TurnoverTitleRowSkipped | app/parser.py:305-308 | a first row with a truthy colspan is skipped in the Turnover Summary even when it reads like the header |
| DailyReport.LaterRowOverwrites | app/parser.py:99-337 | a later row's assignment to a field overrides an earlier row's |
| DailyReport.RowDataShaped | app/parser.py:99-337 | each row assigns ints never negative to the counts and the number of scripts, floats to the rest |
| DailyReport.ParseShaped | app/parser.py:48-337 | every result field has its type: counts non-negative ints, the number of scripts the float default or a non-negative int, the rest floats |
| LegacyParser.CleanNumberNonNegative | scripts/parser1.py:5-8 | every value `clean_number` returns is non-negative |
| LegacyParser.CleanNumberNoValue | scripts/parser1.py:6-7 | the empty text and texts that strip to `-` or `.00` give 0.0 |
| LegacyParser.TrailingMinusLost | scripts/parser1.py:8 | a numeral with a trailing hyphen reads as its positive value |
| LegacyParser.LeadingMinusLost | scripts/parser1.py:8 | a numeral with a leading minus reads as its positive value |
| LegacyParser.ParenthesesRaise | scripts/parser1.py:8 | a parenthesised numeral makes `float()` raise ValueError |
| LegacyParser.PercentRaises | scripts/parser1.py:8 | a numeral followed by `%` makes `float()` raise ValueError |
| LegacyParser.NoNumeralRaises | scripts/parser1.py:8 | a text left as it is that `float()` cannot read raises ValueError |
| LegacyParser.NonBlankStripped | scripts/parser1.py:15 | every kept line is stripped and non-empty |
| LegacyParser.NonBlankMembers | scripts/parser1.py:15 | a line is kept exactly when it is the strip of a piece that does not strip to nothing |
| LegacyParser.NonBlankAppend | scripts/parser1.py:15 | the lines of two runs of pieces are the lines of each, in order |
| LegacyParser.LinesShape | scripts/parser1.py:14-15 | the lines come from splitting the text at newlines, stripping and dropping the blank ones |
| LegacyParser.FirstNamingFirst | scripts/parser1.py:20 | `next()` finds the first line containing both section and caption, and none only when no line does |
| LegacyParser.ValueOfReading | scripts/parser1.py:22-25 | a line reads as 0.0 exactly when `clean_number` raises or reads 0.0, and as a positive value exactly when `clean_number` reads that value |
| LegacyParser.ExtractValueZero | scripts/parser1.py:19-26 | `extract_value` returns 0.0 exactly when no line is left to read (no naming line, or the offset runs past the end) or `clean_number` raises on that line or reads 0.0 from it |
| LegacyParser.ExtractValueReads | scripts/parser1.py:19-26 | `extract_value` reads the line `offset` places after the first naming line |
| LegacyParser.ExtractValueUnnamed | scripts/parser1.py:21-26 | with no line naming both, the value is 0.0 |
| LegacyParser.ExtractValuePastEnd | scripts/parser1.py:22-25 | when the line after the naming line is past the end, IndexError is caught as 0.0 |
| LegacyParser.ExtractValueNonNegative | scripts/parser1.py:19-26 | no extracted value is negative |
| LegacyParser.SalesOrderComplete | scripts/parser1.py:31-54 | every Sales Summary field is read by the positional block |
| LegacyParser.ReadAtOutcome | scripts/parser1.py:31-54 | a positional read raises exactly past the end, for a count line with no digit, and for an amount `clean_number` cannot read |
| LegacyParser.ReadBlockOk | scripts/parser1.py:29-54 | the try block succeeds exactly when every read succeeds |
| LegacyParser.ReadBlockValues | scripts/parser1.py:29-54 | a successful block holds exactly the Sales Summary fields, each with its own read |
| LegacyParser.IndexOfLineFirst | scripts/parser1.py:30 | `lines.index` finds the first line equal to the heading, and none only when there is none |
| LegacyParser.SalesMissing | scripts/parser1.py:29-61 | without the heading line every Sales Summary field is the int 0 |
| LegacyParser.SalesRead | scripts/parser1.py:29-54 | with the heading found and every read succeeding, each field holds its read |
| LegacyParser.SalesFailed | scripts/parser1.py:55-61 | when any read raises, every Sales Summary field is the int 0 |
| LegacyParser.SalesNeedTwentySixLines | scripts/parser1.py:54-61 | fewer than 27 lines from the heading on leave every Sales Summary field at 0 |
| LegacyParser.ParseKeys | scripts/parser1.py:87-130 | the returned dictionary has exactly the 42 keys: all the report's fields but the three cash-up ones |
| LegacyParser.ParseNonNegative | scripts/parser1.py:5-130 | no value of the result is negative |
| LegacyParser.ParseSales | scripts/parser1.py:29-111 | the Sales Summary keys hold the positional block's values |
| LegacyParser.ParseStock | scripts/parser1.py:63-71 | the stock keys hold the values after their captions in the Stock Trading section |
| LegacyParser.ParseDispensary | scripts/parser1.py:73-79 | the dispensary keys hold the values after their captions in the Dispensary section |
| LegacyParser.ParseTurnover | scripts/parser1.py:81-85 | the turnover keys hold the values after their captions in the Turnover section |
| StockPdf.ContainsAnySome | Stock/Daily_extraction.py:19-21 | `any(keyword in line ...)` holds exactly when some keyword occurs in the line |
| StockPdf.CleanLines | Stock/Daily_extraction.py:16-25 | the nested page/line loop produces the cleaned lines the filter specifies |
| StockPdf.CleanedAppend | Stock/Daily_extraction.py:16-25 | the cleaned lines of two runs are those of each, in order |
| StockPdf.CleanedMembers | Stock/Daily_extraction.py:18-25 | a line is kept exactly when it is the strip of a raw line that passes the three tests |
| StockPdf.CleanedAreClean | Stock/Daily_extraction.py:18-25 | every kept line is stripped, not a dash/space rule, and holds no header or exclusion keyword |
| StockPdf.NumberParses | Stock/Daily_extraction.py:44-50 | `float()` of a number group is the value it denotes |
| StockPdf.TakeTokensSplits | Stock/Daily_extraction.py:28-32 | the last tokens found, with the whitespace runs before them, put the text back together |
| StockPdf.TakeTokensOf | Stock/Daily_extraction.py:28-32 | taking the last tokens of a text ending in runs and tokens recovers those tokens |
| StockPdf.MatchStockLine | Stock/Daily_extraction.py:28-32 | every matched number group has the form `-?\d+\.\d{k}` with the pattern's places k |
| StockPdf.MatchSound | Stock/Daily_extraction.py:28-37 | every match decomposes the line exactly as the regular expression requires, with the matched groups |
| StockPdf.MatchComplete | Stock/Daily_extraction.py:28-37 | every line the regular expression decomposes is matched, with those groups and the description stripped |
| StockPdf.ExtractRecords | Stock/Daily_extraction.py:35-51 | the record loop yields one record per matching line, in order |
| StockPdf.ReadLine | Stock/Daily_extraction.py:37-51 | one iteration appends the line's record when it matches and nothing otherwise |
| StockPdf.ExtractPages | Stock/Daily_extraction.py:16-51 | the whole script yields the records of the cleaned lines |
| StockPdf.RecordsAppend | Stock/Daily_extraction.py:35-51 | the records of two runs of lines are those of each, in order |
| StockPdf.RecordsOfLine | Stock/Daily_extraction.py:37-51 | a line gives one record when it matches and none otherwise |
| StockPdf.NonMatchSkipped | Stock/Daily_extraction.py:38 | a non-matching line leaves no trace among the records |
| StockPdf.RecordsBound | Stock/Daily_extraction.py:35-51 | there are never more records than lines |
| StockPdf.RecordFields | Stock/Daily_extraction.py:39-50 | a record's codes and description are the groups unchanged by `strip()`, its numbers the groups' exact values |
| StockLevels.HasPrefixIsStartsWith | src/components/StockLevelsCard.jsx:69-117 | the character-wise prefix test is `startsWith` |
| StockLevels.CategoryRange | src/components/StockLevelsCard.jsx:59-124 | the category is one of the nine keys other than `all`, or `other` |
| StockLevels.CategoryFalsy | src/components/StockLevelsCard.jsx:60-63 | a missing or empty code is `other` |
| StockLevels.CategoryUpper | src/components/StockLevelsCard.jsx:65 | the classification ignores letter case |
| StockLevels.CategoryZaCodes | src/components/StockLevelsCard.jsx:69-108 | ZAJ and ZAU codes are beauty, other ZA codes retail, `SCRIPT` pharmacy |
| StockLevels.ClassifyIsFirstMatch | src/components/StockLevelsCard.jsx:68-123 | the if-chain is the category table read first-match, its negated ZAJ/ZAU tests redundant |
| StockLevels.FilterKeeps | src/components/StockLevelsCard.jsx:148-166 | `all` keeps every product, a category key the products of that category, any other value the products of that department name; order is kept |
| StockLevels.OtherFiltersByName | src/components/StockLevelsCard.jsx:45-165 | `other` is no category key, so it filters by the department name `other` |
| StockLevels.CompareIsKeyDifference | src/components/StockLevelsCard.jsx:169-187 | the comparator is the difference of two keys, so it is a consistent preorder |
| StockLevels.SortSorted | src/components/StockLevelsCard.jsx:169-187 | the sorted list is ordered by key |
| StockLevels.SortPermutes | src/components/StockLevelsCard.jsx:169-187 | the sort neither adds nor drops a product |
| StockLevels.SortStable | src/components/StockLevelsCard.jsx:169-187 | products with equal keys keep their relative order |
| StockLevels.SortOrder | src/components/StockLevelsCard.jsx:172-186 | ascending field values for `asc`, descending for any other direction |
| StockLevels.SortUnknownField | src/components/StockLevelsCard.jsx:178-180 | a field other than `daysOfStock` and `stockValue` leaves the order unchanged |
| StockLevels.SortInPlace | src/components/StockLevelsCard.jsx:169-187 | the array is rearranged into the stable sorted order |
| StockLevels.NextSortShape | src/components/StockLevelsCard.jsx:208-217 | after a click the clicked field is current; a new field starts `desc`, the current one flips direction |
| StockLevels.NextSortTwice | src/components/StockLevelsCard.jsx:208-217 | clicking the current field twice restores the state |
| StockLevels.NextSortNewTwice | src/components/StockLevelsCard.jsx:208-217 | clicking a new field twice sorts it ascending |
| StockLevels.GroupsMeaning | src/components/StockLevelsCard.jsx:127-139 | a category is present exactly when some product has it, and a name is listed under it exactly when some product has both |
| StockLevels.StockLevelsCard.constructor | src/components/StockLevelsCard.jsx:8-16 | no products, filter `all`, sorted by days of stock descending |
| StockLevels.StockLevelsCard.Load | src/components/StockLevelsCard.jsx:35 | the products replace the list and nothing else changes |
| StockLevels.StockLevelsCard.HandleSort | src/components/StockLevelsCard.jsx:208-217 | the sort state becomes the toggle of the old state |
| StockLevels.StockLevelsCard.HandleDepartmentFilterChange | src/components/StockLevelsCard.jsx:203-206 | the filter becomes the chosen value and nothing else changes |
| StockLevels.StockLevelsCard.FilteredAndSorted | src/components/StockLevelsCard.jsx:142-190 | the result is the stable sort of the filtered list; under `all` it is the list itself sorted in place, otherwise a new array and the list unchanged |
| StockLevels.StockLevelsCard.DepartmentsByCategory | src/components/StockLevelsCard.jsx:127-139 | the forEach builds the category-to-department-names grouping |
| StockLevels.DaysColorByBand | src/components/StockLevelsCard.jsx:228-240 | the text colour and the background are chosen by the same band |
| StockLevels.BandMonotone | src/components/StockLevelsCard.jsx:228-240 | more days never gives a milder band |
| StockLevels.BandThresholds | src/components/StockLevelsCard.jsx:228-240 | the bands change at 30, 21 and 14 days |
| CsvExport.CellEmpty | src/components/StockLevelsCard.jsx:258 | a cell is empty exactly for a falsy value, 0 included |
| CsvExport.CellQuoted | src/components/StockLevelsCard.jsx:255-256 | a string with a comma is quoted, and its quoted body reads back as the string |
| CsvExport.CellPlain | src/components/StockLevelsCard.jsx:255-258 | any other string is written as it is |
| CsvExport.CellNumber | src/components/StockLevelsCard.jsx:258 | a non-zero integer is written in decimal, reading back as itself |
| CsvExport.UndoubleDouble | src/components/StockLevelsCard.jsx:256 | doubling the quotes loses nothing |
| CsvExport.DoubledQuotesPair | src/components/StockLevelsCard.jsx:256 | after doubling every quote is one of a pair |
| CsvExport.CellsAt | src/components/StockLevelsCard.jsx:252-259 | cell i of a row is the value under header i |
| CsvExport.CsvLines | src/components/StockLevelsCard.jsx:250-260 | without newlines in headers and values the text splits into the header line and one line per row |
| CsvExport.NewlineSplitsRow | src/components/StockLevelsCard.jsx:255-260 | a value with a newline and no comma makes a one-row export three lines long |
| CsvRows.FilterRows | stock_service/services/csv_parser.py:28-49 | the loop keeps exactly the rows whose comparison succeeds and holds, in order |
| CsvRows.FilterRowsOrder | stock_service/services/csv_parser.py:28-49 | the kept rows are a subsequence of the input |
| CsvRows.FilterRowsKeeps | stock_service/services/csv_parser.py:33-46 | a row is kept exactly when its value (parsed when possible, 0 when missing) is a number above a numeric condition, or equals any other condition |
| CsvRows.MissingColumnIsZero | stock_service/services/csv_parser.py:33-43 | a missing column compares as 0 |
| CsvRows.UnparsableSkipped | stock_service/services/csv_parser.py:35-48 | a numeric comparison with unparsable text raises TypeError and the row is skipped |
| CsvRows.NumericTextNeverEqual | stock_service/services/csv_parser.py:35-46 | a string condition never matches text `float()` accepts |
| CsvRows.UniqueValues | stock_service/services/csv_parser.py:52-59 | AttributeError exactly when some row's value is not a string; otherwise the set of non-empty stripped values |
| CsvRows.StrippedValueShape | stock_service/services/csv_parser.py:56 | every collected value is already stripped |

## Left out

- Reading files, BeautifulSoup's HTML parsing, PyMuPDF's text extraction, `csv.DictReader`, pandas' `to_csv`, the API fetch and the Blob download are I/O: the model starts from the parsed document, the page texts and the row dictionaries.
- `print` and `console.log` output is not modelled.
- The document is assumed well formed (every parent precedes its children), as a parser's tree always is.
- Characters: upper/lower case, `\D` in `clean_int` and `\d` in the stock-line pattern are ASCII-only (Python 3 also counts other Unicode digits), the whitespace set is Python's `str.isspace` for ASCII and the common Unicode spaces.
- NumberCleaning.CleanNumber, NumberCleaning.CleanInt, LegacyParser.CleanNumber: the argument is text; the guards for a non-string argument (app/parser.py:5, app/parser.py:30) and for `None` (scripts/parser1.py:6), which give 0.0 or 0, are not modelled, because every call in these parsers passes a cell's `get_text(strip=True)` or a line of the extracted text.
- Floats are exact real numbers: rounding, `inf`, `nan` and the underscores `float()` accepts are not modelled.
- The card's sort and colour rules on `NaN` or `undefined` values are not modelled: days of stock, cost and stock on hand are numbers.
- `departmentCategories` is read as a plain dictionary; inherited JavaScript object keys such as `toString` are not modelled.
- React state updates take effect at once; re-rendering and effects are not modelled.
- CsvExport.Cell: numbers are integers; JavaScript's decimal rendering of fractional numbers is not modelled.
- StockPdf.CleanLines: the header and exclusion keyword lists are a parameter, with the script's lists as the constant `StockPdf.Filter`.
- StockPdf.CleanedAreClean: the page texts are split at `\n` only, as the script does; other line breaks stay inside a line.
- CsvRows.UniqueValues: returns a set where the source returns `list(set)`, whose order Python does not specify.
- StockLevels.SortInPlace: assigns the stable sorted order element by element rather than running a particular engine sort algorithm.
- The card's `getSortIcon`, `handleDaysFilterChange`, dropdown flags, `formatDateForFilename` and the PDF export are presentation only.
- The CSV service's own `read_csv*` helpers are I/O only.

## Findings

| source | as written | input that shows it | evidently intended | confidence | as-written member | corrected member |
|---|---|---|---|---|---|---|
| app/parser.py:104-130 | a basket-metric row is read from cell 2 only in the branch for rows of fewer than three cells, so cell 2 is never read, and a basket row whose label cell has no colspan `2` is ignored | the row `Average number of items per basket`, `3`, `2.5` with no colspan | read cell 1 under colspan `2`, otherwise cell 2 whenever the row has it (the parse follows the code; `SalesRowWritesIntended` is the intended row reading) | not executed | DailyReport.BasketCellAsWrittenCounterexample | DailyReport.BasketCellLayouts |
