# finbot bookkeeping core in Dafny

finbot is a chat-driven bookkeeping service. A user types a Chinese message
such as `午餐 120 元` or `上個月餐飲花了多少`. The service works out whether
the message records an expense or income, asks for a report, or asks for
advice. A record command is turned into an entry: an amount, a category
chosen by keyword scores, a date resolved from relative phrases like
`昨天`, `3天前`, `上週五` or `上個月15號`, a cleaned description and a
confidence. A query is turned into a period, a category, a chart type and a
query type. The monthly PDF report has four parts modelled here: a summary,
per-category totals, a budget table with a status per budget, and a list of
anomalies. It also shows the 20 most recent transactions.

The Dafny modules follow the source:

- `Calendar` covers the proleptic Gregorian calendar of Python's `date`: ordinals, weekdays, `timedelta` shifts and `replace`. OverflowError is modelled outside years 1..9999.
- `Text` holds `str.strip`, `in`, `split` and `' '.join`.
- `Patterns` holds the regular expressions the core uses, as leftmost-first searches over the text.
- `DateParser` models `DateParser.parse` as its chain of rules. `DateExamples` holds worked inputs.
- `Numerals` holds the three numeral readers: `_chinese_to_number`, `DateParser._parse_chinese_number` and `NLPParser._parse_chinese_number`.
- `Amounts`, `Categories` and `NlpParser` model `NLPParser`: amounts, categories, `parse`, `parse_query` and `_clean_description`.
- `Chat` models the empty-message guard and `_detect_intent` of the chat router.
- `ReportLedger`, `ReportAnomalies` and `ReportDetails` model `ReportGenerator`: the summary, the category groups, the budget rows, the anomaly list and the detail rows.

Code that works by updating variables in a loop is modelled as a method with a loop. Each method is proved against a function that states what the loop computes. The loop code includes the converter loop, the category scoring, `_group_by_category`, the anomaly scan, the month walk of `parse_query`, the description cleaning, the budget rows and the detail rows. The rest is functions.

The model follows the code as written, including these behaviours:

- `2024年12月20日` is caught by the `N號/N日` rule first, so it means day 20 of the current month.
- `2012-01-05` is caught by the `MM/DD` rule first. It reads `12-01` and means 1 December of the current year.
- The converter reads `三十五` as 305.
- A message with no category keyword but containing `收入` is filed under `其他收入` and still typed as an expense.
- In `parse_query` the `這週/本週` and `上個月/上月` branches use `timedelta` before the function-local import further down, so they raise UnboundLocalError. The module-level import at the end of the file does not prevent this.
- `_detect_anomalies` raises ZeroDivisionError when the expenses average exactly 0 while one of them is positive.

## Model

| member | source | states |
|---|---|---|
| Calendar.DaysInMonth | backend/utils/date_parser.py:75-80 | month lengths are 28..31, February has 29 days exactly in leap years, and the 31-day months are 1 3 5 7 8 10 12 |
| Calendar.Weekday | backend/utils/date_parser.py:65 | `date.weekday()` lies in 0..6 (Monday = 0) and advances with the day ordinal modulo 7 |
| Calendar.AddDaysOrdinal | backend/utils/date_parser.py:44-52 | `d + timedelta(days=n)` exists exactly when the target ordinal is within 0001-01-01..9999-12-31, and it is exactly n days from d |
| Calendar.AddDaysWeekday | backend/utils/date_parser.py:65-69 | shifting a date by n days shifts its weekday by n modulo 7 |
| Calendar.PrevDayOfFirst | backend/utils/date_parser.py:75-76 | the day before the first of a month is the last day of the previous month; it exists except at 0001-01-01 |
| Calendar.MakeDate | backend/utils/date_parser.py:95-99 | `date(y, m, d)` succeeds exactly for a valid date and returns it; a component beyond a C int raises OverflowError instead of ValueError |
| Calendar.FirstOfMonth | backend/services/nlp_parser.py:121 | `today.replace(day=1)` keeps year and month and sets day 1 |
| DateParser.Shift | backend/utils/date_parser.py:44-52 | `today ± timedelta` resolves to the date exactly n days away, or raises OverflowError exactly when that leaves the date range; it is never None |
| DateParser.WeekdayIndex | backend/utils/date_parser.py:22-25 | `WEEKDAY_MAP` sends every weekday character to a weekday 0..6 |
| DateParser.TodayMarker | backend/utils/date_parser.py:39-44 | a text containing 今天 or 今日 resolves to today |
| DateParser.YesterdayMarker | backend/utils/date_parser.py:45-46 | failing that, 昨天 or 昨日 resolves to the day before today |
| DateParser.DayBeforeYesterdayMarker | backend/utils/date_parser.py:47-50 | failing those, 前天 and also 大前天 resolve to two days before today |
| DateParser.GreatDayBeforeUnreachable | backend/utils/date_parser.py:47-50 | every text containing 大前天 contains 前天, so the three-days-ago branch is never taken |
| DateParser.DaysAgoPhrase | backend/utils/date_parser.py:54-58 | `N天前` with N in digits or in 一..十 resolves to today minus N as `_parse_chinese_number` reads N |
| DateParser.DaysAgoDigits | backend/utils/date_parser.py:54-58 | `N天前` with N in digits resolves to exactly N days before today |
| DateParser.DaysAgoChinese | backend/utils/date_parser.py:54-58 | `N天前` with N from 1 to 99 written in standard Chinese numerals resolves to exactly N days before today |
| DateParser.DaysAgoCrossesYear | backend/utils/date_parser.py:54-58 | `3天前` on 2024-01-02 is 2023-12-30 |
| DateParser.WeekPhrase | backend/utils/date_parser.py:60-69 | `上週X`, `這週X` and `下週X` resolve to the X-day of the previous, current or next Monday-based week |
| DateParser.WeekTargetProperties | backend/utils/date_parser.py:63-69 | the resolved date has weekday X, lies at Monday + 7·offset + X, and for 這週 falls within the current week |
| DateParser.LastMonthDayProperties | backend/utils/date_parser.py:71-80 | the date `上個月N號` resolves to (LastMonthDayOf, reached by parse through LastMonthPhrase) lies in the previous month, on day N when it exists and on the month's last day otherwise |
| DateParser.LastMonthPhrase | backend/utils/date_parser.py:43-80 | parse of `上個月` + digits + `號` or `日`, for any digits and any today, is exactly that previous-month date: no earlier rule fires and the regex captures the whole digit run |
| DateParser.LastMonthLeapFebruaryExample | backend/utils/date_parser.py:71-80 | parse(`上個月31號`) on 2024-03-15 is 2024-02-29 |
| DateParser.LastMonthClampsLeapFebruary | backend/utils/date_parser.py:77-80 | the previous-month date for day 31 on 2024-03-15 is 2024-02-29 (the ValueError fallback to the month's last day) |
| DateParser.TomorrowMarker | backend/utils/date_parser.py:43-52 | text holding 明天 or 明日 and none of 今天, 今日, 昨天, 昨日, 前天 resolves to today + 1 |
| DateParser.ThisMonthDayProperties | backend/utils/date_parser.py:82-89 | `N號` / `N日` is day N of this month when that day exists and today otherwise |
| DateParser.NoEarlyRule | backend/utils/date_parser.py:43-80 | a text without any marker of the first four rules is left to the later rules |
| DateParser.LateRulesDecide | backend/utils/date_parser.py:82-111 | for such a text the first applicable of the day-of-month, MM/DD and full-date rules decides, and otherwise the result is None |
| DateExamples.ChineseFullDateReadsAsDayOfMonth | backend/utils/date_parser.py:82-89 | every `YYYY年MM月DD日` is read as day DD of the current month |
| DateExamples.ChineseDateExample | backend/utils/date_parser.py:82-89 | `2024年12月20日` resolves to day 20 of today's month in today's year |
| DateExamples.SlashFullDateReadsYearDigits | backend/utils/date_parser.py:91-99 | every `YYYY-MM-DD` or `YYYY/MM/DD` is first read as month YY, day MM of the current year |
| DateExamples.SlashFullDateFallsThrough | backend/utils/date_parser.py:91-108 | the full-date rule is reached only when that reading is no date |
| DateExamples.SlashFullDateAsMonthDay | backend/utils/date_parser.py:91-99 | when YY is a month 1..12 and MM a day 1..28, the text means day MM of month YY in today's year |
| DateExamples.DashedDateExample | backend/utils/date_parser.py:91-99 | `2012-01-05` resolves to 1 December of today's year |
| DateExamples.SlashFullDateNoDate | backend/utils/date_parser.py:91-111 | when YY is no month and the full date is invalid, the result is None |
| DateExamples.ImpossibleDateExample | backend/utils/date_parser.py:101-111 | `2024/02/30` resolves to None |
| Numerals.ParseDayCount | backend/utils/date_parser.py:113-138 | the loop computes `_parse_chinese_number`: digits read in base 10, one character looked up with default 1, a 十-split read as tens and units, and otherwise a positional reading, with 0 replaced by 1 |
| Numerals.DayCountReadsStandard | backend/utils/date_parser.py:123-132 | every standard numeral for 1..99 (一, 十, 十五, 三十, 三十五) is read as its value |
| Numerals.DayCountDefaults | backend/utils/date_parser.py:120-138 | the fallbacks: 天 reads 1, 零 reads 0, 零零 reads 1, 十零 reads 10 |
| Numerals.AmountNumeral | backend/services/nlp_parser.py:40-45 | `CHINESE_NUMS` has a value exactly for the characters of the Chinese amount pattern |
| Numerals.ChineseToNumber | backend/services/nlp_parser.py:217-236 | the converter loop computes the value of the left fold of its step over the characters |
| Numerals.ChineseValueIgnoresUnknown | backend/services/nlp_parser.py:223-224 | characters outside `CHINESE_NUMS` do not change the value |
| Numerals.WanFlushes | backend/services/nlp_parser.py:226-232 | 萬 multiplies the open segment (1 if empty) by 10000, adds it to the total and closes the segment |
| Numerals.MagnitudeScales | backend/services/nlp_parser.py:226-229 | 十 百 千 multiply the open segment (1 if empty) and keep the total |
| Numerals.DigitAppends | backend/services/nlp_parser.py:233-234 | a digit appends to a segment of 10 or more and otherwise replaces it |
| Numerals.ChineseValueSmall | backend/services/nlp_parser.py:217-236 | 十 = 10, 百 = 100, 萬 = 10000, 五百 = 500, 一萬 = 10000 |
| Numerals.ChineseValueLiang | backend/services/nlp_parser.py:40-45 | 兩 and 两 are 2, and 兩百 is 200 |
| Numerals.ChineseValueTensQuirk | backend/services/nlp_parser.py:233-234 | 十五 converts to 105 and 三十五 to 305 |
| Numerals.ChineseValueThousandsQuirk | backend/services/nlp_parser.py:233-234 | 兩千三百 converts to 2000300 |
| Numerals.MonthCount | backend/services/nlp_parser.py:280-291 | digits are read in base 10; a single character reads as 1..10; anything longer reads as 3 |
| Amounts.UnitAmount | backend/services/nlp_parser.py:182-192 | digits followed by 元, 塊 or 錢 give their value |
| Amounts.DollarAmount | backend/services/nlp_parser.py:182-192 | `$` followed by digits gives their value |
| Amounts.DigitGivesAmount | backend/services/nlp_parser.py:199-202 | any text holding a digit yields some amount |
| Amounts.NoDigitsChineseOnly | backend/services/nlp_parser.py:189-204 | in a text without digits only the Chinese amount can give a value, and a value of 0 counts as none |
| Amounts.ChineseUnitAmount | backend/services/nlp_parser.py:194-215 | a Chinese numeral followed by a unit gives the converter's value, or no amount when that is 0 |
| Amounts.ChineseAmountExample | backend/services/nlp_parser.py:206-215 | `五百塊` gives 500 |
| Amounts.ZeroAmountExample | backend/services/nlp_parser.py:194-204 | `零元` gives no amount |
| Amounts.AmountExamples | backend/services/nlp_parser.py:182-192 | `120元` and `$120` give 120 |
| Categories.ScoreWords | backend/services/nlp_parser.py:247-251 | the nested loop counts the (word, keyword) pairs where one contains the other |
| Categories.KeywordWordScores | backend/services/nlp_parser.py:248-251 | a word equal to a keyword gives its category a positive score |
| Categories.PositiveScores | backend/services/nlp_parser.py:245-253 | the scores dict holds exactly the positive-score categories, in table order, with their scores |
| Categories.FirstMax | backend/services/nlp_parser.py:256-257 | `max` returns the first entry with the greatest score |
| Categories.BestIsUnique | backend/services/nlp_parser.py:256-257 | at most one category is the winner |
| Categories.ExtractCategory | backend/services/nlp_parser.py:238-259 | no category exactly when every score is 0, and otherwise the unique highest-scoring category, the earliest in the table on ties |
| NlpParser.CleanDescription | backend/services/nlp_parser.py:261-277 | the description has single spaces and no surrounding whitespace, is never longer than the text, and equals the re-joined words of a text with no digits and no date words |
| NlpParser.JoinedWords | backend/services/nlp_parser.py:274-277 | joining the split words gives normalised text that strip leaves unchanged and that is no longer than the input |
| NlpParser.KeptAmount | backend/services/nlp_parser.py:74-77 | the kept amount is the extracted one unless that is None or 0 |
| NlpParser.Parse | backend/services/nlp_parser.py:63-99 | the raw text is kept; the amount is the kept amount; the date is the resolved one, else today; confidence in tenths is 4 for an amount, 1 for a date, and 4 for a found category or 1 otherwise; the category is the best-scoring one, and income exactly when it is 薪資, 投資 or 其他收入; without a keyword hit it is 其他收入 or 其他 and typed expense; the call raises exactly when date resolution overflows |
| NlpParser.WalkBackMonths | backend/services/nlp_parser.py:146-153 | the loop ends on the first of the month `months - 1` before today's month, and fails exactly when that is before year 1 |
| NlpParser.FirstNamedCategory | backend/services/nlp_parser.py:155-160 | the category is the first in table order whose name appears in the text, and none exactly when no name appears |
| NlpParser.ChartOf | backend/services/nlp_parser.py:162-168 | pie, line and bar each hold exactly when their keywords occur and no earlier chart's keywords do |
| NlpParser.QueryTypeOf | backend/services/nlp_parser.py:170-174 | trend beats compare, which beats category, which beats summary, each holding exactly under its keyword conditions |
| NlpParser.ParseQuery | backend/services/nlp_parser.py:116-176 | the 這週, 本週, 上個月 and 上月 branches raise UnboundLocalError unless 今天 or 今日 comes first; otherwise the end is today, and period and start follow 今天, 今年 or the month default; `近N個月` starts N-1 months back; whenever it returns, the start is a valid date not after the end and the period is never week; category, chart and query type are as above |
| Chat.MentionsAny | backend/routers/chat.py:72-80 | the keyword loop finds something exactly when some keyword occurs in the text |
| Chat.FindDigit | backend/routers/chat.py:83-85 | `re.search(r'\d+')` finds something exactly when the text holds an ASCII digit |
| Chat.DetectIntent | backend/routers/chat.py:68-87 | query exactly when a query keyword occurs; otherwise analysis when an analysis keyword occurs or no digit does; record exactly when neither kind of keyword occurs and a digit does |
| Chat.ProcessMessage | backend/routers/chat.py:43-52 | a message that is blank after strip is refused with 請輸入訊息; otherwise the non-empty stripped text goes to the handler of its intent |
| Chat.StripKeepsMentions | backend/routers/chat.py:43-52 | stripping never changes which keywords a message mentions |
| Chat.LunchCommandIsRecord | backend/routers/chat.py:82-85 | `午餐 120 元` names no keyword and holds a digit, so it is a record |
| Chat.QueryBeatsAnalysis | backend/routers/chat.py:70-80 | `報告怎麼看` names keywords of both lists, so the query check decides |
| ReportLedger.CalculateSummary | backend/services/report_generator.py:220-230 | net is income minus expense, and count is the number of transactions |
| ReportLedger.SummaryAppend | backend/services/report_generator.py:220-230 | every field of the summary is additive over concatenated ledgers |
| ReportLedger.KindsPartition | backend/services/report_generator.py:222-223 | expenses, income and untyped entries partition the amounts and the count |
| ReportLedger.GroupByCategory | backend/services/report_generator.py:233-244 | one group per expense category in order of first appearance, holding the sum and count of that category's expenses |
| ReportLedger.NamesExact | backend/services/report_generator.py:235-241 | group names are distinct, and a category has a group exactly when it has an expense |
| ReportLedger.GroupsCoverExpenses | backend/services/report_generator.py:233-244 | the group totals add up to the total expense and the group counts to the number of expenses |
| ReportLedger.StatusOf | backend/services/report_generator.py:140-142 | with a positive limit: ✅ up to 80 % of the limit, ⚠️ up to the limit, ❌ beyond it; with no positive limit, always ✅ |
| ReportLedger.RateScales | backend/services/report_generator.py:140-142 | rate thresholds of 80 and 100 are thresholds of 0.8 and 1 times the limit |
| ReportLedger.BudgetRows | backend/services/report_generator.py:136-142 | one row per budget with its category (default 總預算), limit (default 0), used amount, rate and status |
| ReportLedger.LookupIsCategoryTotal | backend/services/report_generator.py:139 | the used amount looked up in the groups is the category's expense total, and 0 for a category without expenses |
| ReportLedger.BudgetUsesItsExpenses | backend/services/report_generator.py:137-139 | a category budget uses that category's expenses; 總預算 uses the total expense |
| ReportAnomalies.AmountsMatchSummary | backend/services/report_generator.py:255-259 | the amounts averaged are the expenses, and their sum is the summary's total expense |
| ReportAnomalies.DetectAnomalies | backend/services/report_generator.py:247-282 | no expenses give no notes; otherwise the high-amount notes in ledger order come first and the repeat notes in first-appearance order after them, cut to 5; the scan raises ZeroDivisionError exactly when the average is 0 and some expense is positive |
| ReportAnomalies.CountKeys | backend/services/report_generator.py:269-274 | `daily_amounts` counts the expenses of every distinct (date, amount) key, in first-appearance order |
| ReportAnomalies.KeysExact | backend/services/report_generator.py:276-280 | the keys are distinct, and a key is present exactly when some expense has it |
| ReportAnomalies.HighOnesExact | backend/services/report_generator.py:261-266 | the high notes are, one for one and in ledger order, the high expenses, each with its description or 未命名, its amount and amount / average |
| ReportAnomalies.HighOnesAbove | backend/services/report_generator.py:261-266 | every high note has an amount above three times the average and its ratio to the average |
| ReportAnomalies.FilterExact | backend/services/report_generator.py:261-262 | the high expenses are exactly the ledger's expenses above three times the average |
| ReportAnomalies.RepeatsExact | backend/services/report_generator.py:276-280 | every repeat note names a key spent at least twice, with the number of its expenses, and every such key gets a note |
| ReportAnomalies.RepeatsDistinct | backend/services/report_generator.py:276-280 | distinct keys give distinct repeat notes |
| ReportAnomalies.RepeatNotesOnce | backend/services/report_generator.py:270-280 | no (date, amount) pair of a ledger is reported twice |
| ReportAnomalies.NoHighWhenUniform | backend/services/report_generator.py:259-263 | when every expense is the same positive x, the average is x and nothing is high |
| ReportAnomalies.ZeroAverageDivides | backend/services/report_generator.py:259-265 | expenses of 5 and -5 make the scan divide by zero |
| ReportAnomalies.Take | backend/services/report_generator.py:282 | `[:5]` keeps a prefix of at most 5 notes, and the whole list when it is short enough |
| ReportDetails.SortIsStableNewestFirst | backend/services/report_generator.py:174 | the sort by date string with `reverse=True` is newest first, a permutation, and keeps ledger order among equal dates |
| ReportDetails.NotBeforeTransitive | backend/services/report_generator.py:174 | "not earlier" on Python strings is transitive, so the order is one a sort can produce |
| ReportDetails.DateCellIsPrefix | backend/services/report_generator.py:182 | the date cell is the first ten characters of the date, and empty for an empty date |
| ReportDetails.Truncate | backend/services/report_generator.py:184 | a description of up to 15 characters is kept; a longer one becomes its first 15 characters followed by `...` |
| ReportDetails.PrefixKeepsOrder | backend/services/report_generator.py:174-182 | cutting dates to ten characters keeps newest-first order |
| ReportDetails.DetailRows | backend/services/report_generator.py:172-186 | the table has min(20, n) rows, row i is built from the i-th sorted transaction, and the date cells are newest first |

## Left out

- The clock: `date.today()` is a parameter `today` of the date resolver, of `parse` and of `parse_query`.
- jieba segmentation: `_extract_category` receives the word list jieba would produce as a parameter `words`. The segmenter itself is not part of this model.
- `\d` and `str.isdigit` are modelled for the ASCII digits 0-9 only; Python also accepts other Unicode decimal digits. Whitespace (`\s`, `str.strip`, `str.split`) follows the full `str.isspace` set, Unicode spaces included.
- GroupByCategory, DetectAnomalies and DetailRows: a key that is missing is modelled (an Option, or the empty string for the date), but a key present with the value `None` is not. In Python a `None` description makes `len(...)` raise TypeError in the detail table (backend/services/report_generator.py:184), a `None` description is printed as `None` in a high-amount note (:265), a `None` category becomes a group of its own (:238), and a `None` date among string dates makes the sort raise TypeError (:174).
- `float(...)` of a decimal such as `12.5` is modelled as an exact rational, and amounts are `real`. Binary floating-point rounding is not modelled.
- Report output is not modelled: reportlab layout, fonts, number formatting such as `f"{x:,.0f}"`, and the exact text of the anomaly messages. The model carries each message's data instead.
- The database, the FastAPI handlers `_handle_record`, `_handle_query` and `_handle_analysis`, `ai_analyzer` and the other routers are not part of this model.
- NlpParser.ParseQuery: for the `這週/本週` and `上個月/上月` branches, which raise, the model states only the raise, not the dates those branches were evidently meant to compute.
- DateParser.WeekdayIndex: states only the range 0..6; each character's weekday is fixed by its body and checked through WeekTargetProperties.
- Calendar.MakeDate: the bound on day, month and year components beyond which Python raises OverflowError rather than ValueError is taken as the C `int` range.
