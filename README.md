# Commodity spot prices and basis, as verified Dafny

This project models the basis pipeline of akshare's futures package
(`akshare/futures/basis.py`). The pipeline scrapes a daily table of
commodity spot prices and turns its rows into one record per commodity.
Each record holds the commodity's symbol, its spot price in futures units,
the near and dominant contracts with their settlement prices, the two bases
and the two basis rates, and the date.

Modules:

- `Wrappers`: the `Option` and `Result` types.
- `Text`: character classes, Python slicing, and `str(int(...))` on digit text.
- `Dates`: the Gregorian calendar, `date + timedelta(days=1)` and `strftime('%Y%m%d')`.
- `Symbols`: the label filter, the spot unit correction, the contract code
  built from the contract label (`re.sub`, `int`, the two exchange rules), and
  the basis arithmetic.
- `CheckInfo`: `_check_information`. Its row loop is the method
  `CheckInformation`, proved equal to the function `Checked`. The per-column
  transforms are functions.
- `DailyFetch`: `get_spot_price`, with the two date gates and the retry loop
  over the dated and the latest page. The method `GetSpotPrice` is proved
  equal to the function `Daily`. Lemmas about `Retry` cover the failure
  counter.
- `RangeFetch`: `get_spot_price_daily`, the inclusive day loop. The method
  `GetSpotPriceDaily` is proved equal to the function `Range`. `Range` is
  proved to be a fold over the outcomes of the calendar days between start
  and end.

The following are parameters:

- The web pages. A `Fetcher` oracle gives, for a date, a call index and a
  page, either a raise or the page's echoed date cell and its price table.
- The trading calendar, the Chinese-name-to-symbol map (`chinese_to_english`)
  and the exchange symbol lists (`cons.market_exchange_symbols`). These are
  injected as a `Reference` value.

The `while True` retry loop can run forever when pages keep echoing another
date. The model therefore runs at most `rounds` rounds of two fetches, and
reports `Spinning` when they are used up.

## Model

| member | source | states |
|---|---|---|
| Symbols.LabelKey | akshare/futures/basis.py:140-145 | "PTA" is looked up as "PTA". Any other label is reduced to its CJK characters. The row is skipped exactly when that reduction is empty or one of the five header labels. |
| Symbols.BoilerplateSkipped | akshare/futures/basis.py:143-145 | A header label is skipped whatever non-CJK text (digits, letters, spaces, punctuation) surrounds it, and so also as it stands. |
| Symbols.NonCjkSkipped | akshare/futures/basis.py:143-145 | A label other than "PTA" with no CJK character is skipped. |
| Symbols.PtaKept | akshare/futures/basis.py:141-142 | "PTA" is kept and looked up as "PTA", although the CJK rule would have emptied it. |
| Symbols.NormalizeSpot | akshare/futures/basis.py:150-153 | The egg (JD) spot is multiplied by 500 and the glass (FG) spot by 80. Every other spot is unchanged. The factor keeps zero and never shrinks a positive spot. |
| Symbols.MatchStartIsLeftmost | akshare/futures/basis.py:159-160 | The match of `[^0-9]*(\d*)$` starts at the leftmost position from which the rest of the label is non-digits followed by digits. |
| Symbols.ContractDigitsOfLabel | akshare/futures/basis.py:159-160 | The substitution leaves exactly the digits of a label made of non-digits followed by digits. |
| Symbols.ContractCode | akshare/futures/basis.py:159-172 | A contract code exists exactly when the substituted text is a non-empty run of digits whose value fits in an `int64` (at most 2^63 - 1), which is what `astype('int')` stores. |
| Symbols.ContractCodeOverflow | akshare/futures/basis.py:159-163 | A label ending in twenty or more digits without a leading zero gives no contract code, because the value overflows the `int64` column. |
| Text.LongRunOverflows | akshare/futures/basis.py:162-163 | Twenty or more digits without a leading zero do not parse to an `int64`. |
| Symbols.ContractCodeOfLabel | akshare/futures/basis.py:159-163 | For a label like "rb1901" whose digits fit in an `int64`, the code is the symbol followed by the digits without their leading zeros (all zeros give "0"), before the exchange rules. |
| Symbols.ContractCodeOfLabelTooLarge | akshare/futures/basis.py:159-163 | For a label whose digits are worth more than an `int64` holds, there is no contract code. |
| Symbols.CaseRulePreservesShape | akshare/futures/basis.py:165-168 | The case rule keeps the code's length and every character that is not a capital letter, digits included. When `x[:-4]` is a Shanghai or Dalian symbol, every character is lower-cased and no capital letter is left. Otherwise the code is unchanged. |
| Symbols.CzceRuleCutsOne | akshare/futures/basis.py:169-172 | When `x[:-4]` of a code of four or more characters is a Zhengzhou symbol, the rule removes the fourth character from the end and keeps every other character in place. |
| Symbols.ExchangeRulesOnFourDigits | akshare/futures/basis.py:165-172 | With a four-digit year-month, a Shanghai or Dalian code is lower-cased whole. A Zhengzhou code keeps a three-digit suffix. Any other code is left as built. |
| Symbols.Basis | akshare/futures/basis.py:174-175 | The basis added to the spot gives the contract price. |
| Symbols.RateTimesSpot | akshare/futures/basis.py:174-177 | For a non-zero spot, the rate times the spot is the basis. |
| Symbols.RateOf | akshare/futures/basis.py:176-177 | The rate is finite exactly when the spot is non-zero, and then it is the price over the spot, minus one. |
| Symbols.RateSign | akshare/futures/basis.py:174-177 | Over a positive spot, the rate and the basis have the same sign, and the rate is zero exactly when the price equals the spot. |
| Text.DecimalOfDigits | akshare/futures/basis.py:162-163 | `str(int(s))` of a digit string drops its leading zeros, and an all-zero string gives "0". |
| Text.ParseDecimal | akshare/futures/basis.py:162-163 | Rendering a number and parsing it back gives the number. |
| CheckInfo.Matching | akshare/futures/basis.py:147 | The rows picked for a label are exactly the table's rows with that label. |
| CheckInfo.MatchingCounts | akshare/futures/basis.py:147 | The filter keeps each row with that label as many times as the table has it, and no other row. |
| CheckInfo.StageFailurePersists | akshare/futures/basis.py:140-154 | Once a row raises in the row loop, later rows do not change the outcome. |
| CheckInfo.Finish | akshare/futures/basis.py:156-178 | Building a record from a kept row succeeds exactly when both prices are numbers and both contract labels leave digits that read as an `int64`. A missing price fails as not a number, and a bad label as a bad contract. A built record has the row's symbol, spot and prices, the derived contract codes, the two bases and rates, and the date. |
| CheckInfo.FinishAll | akshare/futures/basis.py:156-178 | The column transforms succeed exactly when every kept row's prices and contract labels read. They then give one record per kept row, in order, each built from its row. |
| CheckInfo.CheckInformation | akshare/futures/basis.py:137-179 | The row loop followed by the column transforms returns `Checked`: the records, or the failure that makes the function raise. |
| CheckInfo.StageRowOk | akshare/futures/basis.py:141-154 | One turn of the row loop raises exactly when its label is kept but the name map lacks it, a row with that label has a non-numeric spot, or an egg or glass label has more than one row. |
| CheckInfo.StageOk | akshare/futures/basis.py:140-154 | The row loop raises exactly when some row of the table is not accepted. |
| CheckInfo.CheckedOk | akshare/futures/basis.py:137-179 | `_check_information` returns exactly when the row loop accepts every row, at least one row is kept, and every kept row's prices and contract labels read. Otherwise it raises. |
| CheckInfo.RecordsFromKeptRows | akshare/futures/basis.py:140-178 | Every record comes from a kept row of the table with the right symbol, spot and figures. Every kept row gives a record. There is at least one record. |
| CheckInfo.StagedFromTable | akshare/futures/basis.py:146-154 | Every row the loop keeps is a table row kept under its mapped symbol, with its spot unit-corrected. |
| CheckInfo.KeptRowsStaged | akshare/futures/basis.py:145-154 | Every table row whose label is kept is taken into the records. |
| DailyFetch.SelectVars | akshare/futures/basis.py:102-104 | The selected records are exactly those whose symbol is requested. |
| DailyFetch.SelectedInRequestOrder | akshare/futures/basis.py:102-105 | When each commodity has one record, the result holds exactly the requested symbols that occur, in request order. |
| DailyFetch.BySymbolDistinct | akshare/futures/basis.py:104 | With distinct symbols, looking up one symbol gives its one record, or none. |
| DailyFetch.Present | akshare/futures/basis.py:103 | The present requested symbols are the requested ones that occur. |
| DailyFetch.StepOf | akshare/futures/basis.py:96-114 | A fetch is a mismatch exactly when its page echoes another date. It is accepted exactly when the page echoes the date and its table reads, and it then gives the selected records. Otherwise it is a failure. |
| DailyFetch.TryPage | akshare/futures/basis.py:96-108 | The body of the `try` block gives the step `StepOf` describes. |
| DailyFetch.FetchStep | akshare/futures/basis.py:91-98 | One pass makes the k-th fetch of the day, of the dated page for even k and of the latest page for odd k, and gives that fetch's step. |
| DailyFetch.Retry | akshare/futures/basis.py:94-114 | The retry loop ends only with a table, with False, or when the modelled rounds run out. |
| DailyFetch.GetSpotPrice | akshare/futures/basis.py:85-114 | The method returns `Daily`: the two gates, then the retry loop. |
| DailyFetch.FetchLoop | akshare/futures/basis.py:93-114 | The loop over rounds and over the dated then the latest page returns what `Retry` gives on the fetches' steps, with the counter starting at 1. |
| DailyFetch.DailyGates | akshare/futures/basis.py:86-90 | A date before 2011-01-04 raises, and only such a date does. A later date that the calendar does not list gives None. |
| DailyFetch.FifthFailureExhausts | akshare/futures/basis.py:109-114 | With the counter starting at 1 and no accepted page before it, the fifth failing fetch returns False. |
| DailyFetch.ExhaustedOnlyAtFifthFailure | akshare/futures/basis.py:109-114 | False is returned only at a failing fetch that brings the counter past five, with no accepted page before it. |
| DailyFetch.RowsFromAcceptedPage | akshare/futures/basis.py:100-106 | A returned table is that of an accepted page, reached before the fifth failure, with no earlier accepted page. |
| DailyFetch.AcceptedPageGivesRows | akshare/futures/basis.py:100-106 | The first accepted page reached before the fifth failure gives its table. |
| DailyFetch.MismatchesSpin | akshare/futures/basis.py:107-108 | A page echoing another date never moves the counter, so a run of such pages never ends the loop. |
| Dates.NextDay | akshare/futures/basis.py:59 | The next day is a valid date after the given one. |
| Dates.NextDayImmediate | akshare/futures/basis.py:59 | No valid date lies strictly between a date and its next day. |
| Dates.YyyymmddRoundTrip | akshare/futures/basis.py:88 | For years up to 9999, `strftime('%Y%m%d')` is eight digits that read back as the date. |
| Dates.YyyymmddInjective | akshare/futures/basis.py:100 | Two dates with the same `YYYYMMDD` text are the same date, so an echo that matches names the requested date. |
| RangeFetch.GetSpotPriceDaily | akshare/futures/basis.py:51-63 | The day loop returns `Range` from the start date with no table gathered. |
| RangeFetch.DaysCovered | akshare/futures/basis.py:52-59 | The loop visits the start date first, steps one calendar day at a time, stays within the range, and reaches every valid date of the range. |
| RangeFetch.OutcomeOfDay | akshare/futures/basis.py:54 | The k-th outcome is `get_spot_price` of the k-th visited day. |
| RangeFetch.RangeIsCollect | akshare/futures/basis.py:52-63 | The range loop is the fold over the outcomes of the visited days. |
| RangeFetch.CollectWithoutStop | akshare/futures/basis.py:55-63 | When no day stops the loop, the result is every day's table appended in day order, skipping days that gave None. It is None when no day gave a table. |
| RangeFetch.CollectUpToStop | akshare/futures/basis.py:54-58 | When a day is the first to stop the loop, only the tables of earlier days count. False returns them, and a raise passes through. |
| RangeFetch.RangeWithoutStop | akshare/futures/basis.py:52-63 | The range fetch without a stopping day gives the tables of the days in order, or None. |
| RangeFetch.RangeUpToStop | akshare/futures/basis.py:52-58 | The range fetch with a first stopping day gives what that day makes of the earlier days' tables. |
| RangeFetch.ConcatAppend | akshare/futures/basis.py:56-61 | Concatenating frames keeps every row of every frame, frame after frame. |

The source and the documented behaviour disagree in three places. The model
follows the code.

- When the first day that returns False comes before any day gave a table,
  `pd.concat([])` raises. The model returns
  `Raised(NothingToConcatenate)`; it does not return an empty table.
- A range in which no day gave a table returns None (`NoTable`).
- A day whose table keeps no commodity row raises a KeyError at line 156.
  That exception is caught by the retry loop and counted as a failed fetch
  (`NoRecords`).

## Left out

- HTTP fetching and HTML parsing (`pandas_read_html_link`) are replaced by the `Fetcher` oracle. Reading `r[0].loc[1, 1]` is part of it.
- `time.sleep`, `print` and `warnings.warn` are left out. They have no logical content.
- The defaults taken from today's date, `cons.convert_date` and `cons.get_latest_data_date` are left out. Dates are given as `Date` values.
- `chinese_to_english` and the `cons` tables are not part of this model. They are injected as a map and sets. A name the map lacks is modelled as raising (`UnknownCommodity`).
- `float()` on cell text is not modelled. A price cell is a parsed `real`, or None for text that `float()` rejects. NaN cells are not modelled.
- RateOf: IEEE division by a zero spot is only marked `NonFinite`. It does not distinguish infinity from NaN.
- Lower: lower-casing covers ASCII letters only.
- ContractDigits: the regex's `\d` is taken as ASCII digits. In Python, `\d` also matches other Unicode decimal digits such as "１" or "٣", while `[^0-9]` excludes only ASCII digits. For a label containing such a digit, the source can give a code the model does not. `$` also matching before a final newline is not modelled either, since cell texts come out of the HTML parser.
- MatchStartIsLeftmost: the match it describes is the one on ASCII digits, for the reason given for ContractDigits.
- ParseInt: `astype('int')` is modelled as accepting only a non-empty run of ASCII digits whose value fits in a 64-bit integer. The model takes numpy's default integer to be 64 bits wide, as it is on Linux and macOS. On Windows with numpy before 2.0 it is 32 bits wide, and the bound there is lower. Python also accepts surrounding whitespace, a sign, underscores between digits and non-ASCII digits. Such text reaches `int()` only from a label with a digit before its last non-digit, such as "+1a2".
- `date + timedelta` overflow past year 9999 is not modelled. `NextDay` goes on counting years.
- GetSpotPrice: the `while True` loop is cut after `rounds` rounds. An endless run of date mismatches shows up as `Spinning`, not as non-termination.
- CheckInfo.Checked: when several cells are bad, which failure is reported follows the model's row order. The source's column order is not modelled. Any failure still makes the whole day a failed fetch.
- pandas index mechanics (`reset_index`, the symbol index) are left out. Tables are sequences of records.
- `akshare/fund/zdzk_fund.py` is not part of this model. It is an HTTP download and plotting script with no logic of its own.
