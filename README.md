# Check-in and lottery scripts, modelled in Dafny

The repository holds three scheduled scripts:

- `PT_attendance.py` checks in on a fixed registry of six private trackers. It keeps a roster document (`PT_attendance.json`). The document holds each site's last check-in date and the figures scraped then. It sends one HTML report when some site was visited.
- `FN_attendance.py` checks in on the FN forum. It reads a `sign` token from the check-in page and requests the check-in URL with it. It confirms on the page that today is checked in, scrapes seven counters and merges them into `FN_attendance.json`. Then it notifies.
- `lottery_check.py` compares the tickets configured in the environment with the latest draw of 双色球 (`ssq`), 福彩3D (`3d`) and 快乐8 (`kl8`). It works out the prize level and amount and keeps a per-game history in `lottery_data.json`. It pushes at most one report per day.

The model keeps the scripts' own structure:

- Pure logic is written as functions, with lemmas about them. This covers the prize tables, regular-expression matching, number formatting, the date gates, document updates and whole runs.
- Code that loops or updates state in place is written as methods proved equal to those functions:
  - the retry loop;
  - the detail-parsing loop;
  - the site loop of `run`;
  - the client objects;
  - the data files.

Some things the scripts depend on become inputs to the model instead:

- Inputs for all three scripts:
  - the network (`net` maps each request to a `Web.Response`);
  - the lottery API (`api`);
  - the process environment;
  - today's date.
- `PTAttendance` also takes the PT regular expressions, as a `Scraper`.
- `LotteryRules` also takes the weekday of a date (`weekdayOf`, standing for `strptime(...).isoweekday()`).

Files:

- `wrappers.dfy`: `Option` and `Result`.
- `strings.dfy`: the Python string operations used, as functions on `seq<char>`. These are `in`, `split`, `join`, `int()`, `str()`, `:02` padding, `<` on strings and slicing.
- `retrying.dfy`: the shared retry policy.
- `web.dfy`: what a GET returns.
- `patterns.dfy`: the regular-expression shapes that `FN_attendance.py` uses.
- `pt_attendance.dfy`, `fn_attendance.dfy`: the two check-in scripts.
- `lottery.dfy` and `lottery_run.dfy`: the lottery checker. The first holds the prize rules, the second the data file and `run`.

## Model

| member | source | states |
|---|---|---|
| Retrying.RetryFrom | PT_attendance.py:59-73 | Starting after `retries` failed calls, the wrapper returns the first value a call returns, with every call between raising. It raises only when all calls up to `max_retries` raised, and never makes more than that many calls. |
| Retrying.Retry | PT_attendance.py:59-73 | The decorated call makes at most `max_retries` calls. A returned value is what the last call returned, and every earlier call raised. Raising means every one of the `max_retries` calls raised. |
| Retrying.RetryFindsFirstSuccess | PT_attendance.py:64-71 | If call `k < max_retries` is the first one that returns, the wrapper returns its value after exactly `k + 1` calls. |
| Retrying.RetryLoop | PT_attendance.py:64-73 | The `while retries < max_retries` loop computes exactly `Retry`. |
| FNAttendance.RetryDecorator.Call | FN_attendance.py:34-52 | `RetryDecorator.__call__`'s wrapper follows the same policy: a returned value comes from the last of at most `max_retries` calls, and raising means all of them raised. |
| Patterns.LongestRun | FN_attendance.py:71 | `[A-Za-z0-9]+` and `\d+` take the longest prefix of class characters: every character taken is in the class, and the next one is not. |
| Patterns.LazyFromMeaning | FN_attendance.py:109 | `(.+?)</li>` on one line ends at the first `</li>` after at least one character. It fails when a newline comes first. |
| Patterns.MatchAt | FN_attendance.py:71 | A match at a position needs the literal prefix there and captures at least one character. |
| Patterns.MatchRunMeaning | FN_attendance.py:104-108 | A run match at `i` is the longest run of class characters right after the prefix. Without a match, the prefix is absent or no class character follows it. |
| Patterns.MatchTimestampMeaning | FN_attendance.py:103 | A timestamp group matches exactly a 19-character `dddd-dd-dd dd:dd:dd` after the prefix. |
| Patterns.MatchLazyMeaning | FN_attendance.py:109 | A lazy group's match at `i` is the text up to the first closing literal, found within one line after the prefix. |
| Patterns.SearchFrom | FN_attendance.py:114 | Scanning from `i`, the result is the match at the first position that matches. `None` means no position from `i` on matches. |
| Patterns.Search | FN_attendance.py:114 | `re.search` returns the leftmost match, and `None` iff no position matches. |
| Patterns.SearchFromFindsFirst | FN_attendance.py:114 | When `k` is the first matching position at or after `i`, the search returns the match at `k`. |
| Patterns.SearchFindsRun | FN_attendance.py:71 | In `pre + prefix + token + post`, with no earlier prefix and `post` not continuing the class, the search captures exactly `token`. |
| Patterns.RunOfToken | FN_attendance.py:71 | The longest class run of `token + post` is `token` when `post` does not start with a class character. |
| Patterns.SearchFindsLazy | FN_attendance.py:109 | In `pre + prefix + value + close + post`, with no earlier prefix and no earlier `close`, the lazy search captures exactly `value`. |
| Patterns.LazyMatchHere | FN_attendance.py:109 | The lazy match at `i` stops at the first closing literal `e` on the same line. |
| Patterns.LazyReaches | FN_attendance.py:109 | Scanning on from `j`, the lazy match reaches the first close at `e`. |
| Patterns.RunMatchHere | FN_attendance.py:104-108 | A prefix followed by a non-empty class run matches there, capturing that run. |
| FNAttendance.SignAttempt | FN_attendance.py:65-75 | One `fetch_sign` call returns iff the page was fetched and `sign=([A-Za-z0-9]+)` occurs. The token is then non-empty and alphanumeric. Otherwise the call raises. |
| FNAttendance.SearchRunFound | FN_attendance.py:71 | A found run token occurs in the page right after its prefix and consists of class characters. |
| FNAttendance.RunMatchOccurs | FN_attendance.py:71 | A run match at `i` is non-empty, made of class characters, and `prefix + token` occurs at `i`. |
| FNAttendance.SignOfPage | FN_attendance.py:71-72 | A page `pre + "sign=" + token + post`, with no earlier `sign=`, yields exactly `token`. |
| FNAttendance.NoEarlierSign | FN_attendance.py:71 | When `pre` has no `sign=`, no occurrence of `sign=` starts inside `pre`. |
| FNAttendance.SignFetchRequests | FN_attendance.py:65-75 | The decorated `fetch_sign` GETs the check-in page at least once and at most three times, and never any other URL. A token it returns was read from the last page it fetched. |
| FNAttendance.DetailPatternsWellFormed | FN_attendance.py:102-110 | The seven patterns have distinct keys, in the report's key order. |
| FNAttendance.DetailsOfMeaning | FN_attendance.py:112-116 | The parsed map has a key iff its pattern is found in the page. Its value is then that pattern's first match. It has no other keys. |
| FNAttendance.Details | FN_attendance.py:99-116 | `_parse_attendance_details` has exactly the keys whose pattern occurs in the page, each mapped to its leftmost match. |
| FNAttendance.ParseAttendanceDetails | FN_attendance.py:112-116 | The loop over the patterns builds exactly `Details(html)`. |
| FNAttendance.AttendanceTry | FN_attendance.py:77-97 | One `perform_attendance` call raises without any GET when `sign` is unset or empty, and makes at most two GETs. It returns only when both GETs succeeded and the second page shows `今日已打卡`. The value is then the parse of that page. |
| FNAttendance.AttendanceLogShape | FN_attendance.py:80-95 | Every GET of `perform_attendance` belongs to one of the invocations made, and needs a non-empty sign. It is the check-in URL carrying the sign, or the verification page. The verification page is read only right after the same invocation's check-in request succeeded. |
| FNAttendance.AttendanceNeedsSign | FN_attendance.py:80-81 | Without a sign, the decorated call raises after three attempts and sends nothing. |
| FNAttendance.AttendanceLogEmpty | FN_attendance.py:80-81 | Without a sign, no attempt sends a request. |
| FNAttendance.AttendanceSucceeded | FN_attendance.py:87-97 | When `perform_attendance` returns, its last two GETs were the check-in URL carrying the sign and then the verification page. That page showed `今日已打卡`, and the result is that page's parse. |
| FNAttendance.FNClient.constructor | FN_attendance.py:56-63 | A client keeps its cookie and starts without a sign. |
| FNAttendance.FNClient.FetchSign | FN_attendance.py:65-75 | The decorated `fetch_sign` behaves as `Retry` of `SignAttempt`. The client's sign becomes the token on success and is unchanged otherwise. |
| FNAttendance.FNClient.PerformAttendance | FN_attendance.py:77-97 | The decorated `perform_attendance` behaves as `Retry` of `AttendanceTry` with the client's sign. |
| FNAttendance.NewClient | FN_attendance.py:56-63 | Construction fails iff the cookie is empty. Otherwise the new client holds the cookie and no sign. |
| FNAttendance.AsJson | FN_attendance.py:152 | The details become JSON strings under the same keys. |
| FNAttendance.Updated | FN_attendance.py:145-157 | The update succeeds iff the record is an object with an object `info`. Then `last_attendance` is today, other top-level keys are kept, and `info` takes every detail and keeps its other keys. |
| FNAttendance.RecordFile.constructor | FN_attendance.py:28 | The file starts with the given content. |
| FNAttendance.RecordFile.InitDataFile | FN_attendance.py:121-143 | The default record is written only when there is no file, and is always returned. |
| FNAttendance.RecordFile.UpdateRecord | FN_attendance.py:145-157 | A missing or unparsable file is left alone. A record of the wrong shape raises and is left as it was. Otherwise the file holds `Updated(record)`. |
| FNAttendance.Initialised | FN_attendance.py:136-140 | After `init_data_file` a file always exists, and an existing one is untouched. |
| FNAttendance.ReportValues | FN_attendance.py:185-194 | The report carries the seven details in report order. |
| FNAttendance.Finish | FN_attendance.py:183-200 | After a check-in the record is updated when it has the right shape. The run notifies iff that update succeeded and every detail was found. The report is then the seven values, and any other ending is a logged failure. |
| FNAttendance.CheckIn | FN_attendance.py:159-200 | `main` has exactly the outcome and final file of `CheckInSpec`. |
| FNAttendance.CheckInGates | FN_attendance.py:161-177 | The client runs iff the loaded record is not dated today and `PV_COOKIE` is set. Otherwise the file is only initialised. |
| FNAttendance.NotifiedMeansRecorded | FN_attendance.py:183-196 | After a notification the record says today and holds each reported value under its key. |
| FNAttendance.NotifiedMeansConfirmed | FN_attendance.py:91-97 | A notified run's GETs start with the token fetch. They end with the check-in URL carrying a non-empty token, then a verification page showing `今日已打卡`. |
| FNAttendance.RecordedEvenIfDetailMissing | FN_attendance.py:183-194 | When a detail is missing, the record is still stamped with today before the report raises. |
| FNAttendance.SecondRunSameDay | FN_attendance.py:170-172 | A second run on a notified day stops at the date gate and changes nothing. |
| FNAttendance.DefaultKeysAsWrittenGoStale | FN_attendance.py:126-129 | As written, a complete first check-in leaves three misspelt zero counters beside the seven details. |
| FNAttendance.DefaultKeysAllRefreshed | FN_attendance.py:126-129 | With the keys spelt as the parser spells them, a complete check-in replaces every default. |
| PTAttendance.Names | PT_attendance.py:26-57 | The registry's names in declaration order. |
| PTAttendance.LookupIn | PT_attendance.py:205 | `PT.get(name)` finds a config iff the name is registered, and the config is registered under it. |
| PTAttendance.LookupFindsEntry | PT_attendance.py:205 | With distinct names, looking up an entry's name yields that entry's config. |
| PTAttendance.RegistryNamesDistinct | PT_attendance.py:26-57 | The six registered names are distinct. |
| PTAttendance.EnabledIn | PT_attendance.py:151 | `enables` is the registered names whose cookie variable is set and non-empty, in registry order. |
| PTAttendance.InitDoc | PT_attendance.py:147-176 | The initial roster counts the registry and lists exactly the sites with a cookie, in order. Every registered site gets the never-checked default entry. |
| PTAttendance.InitDocOfRegistry | PT_attendance.py:149-152 | For the shipped registry, `total` is 6. |
| PTAttendance.SafeReSearch | PT_attendance.py:134-140 | With no match the result is `N/A`. Otherwise it is the first match, with spaces removed under `cleanup`. |
| PTAttendance.SafeReRank | PT_attendance.py:142-145 | With no match the result is `N/A/N/A`. Otherwise it splits at `/` into the two captured numbers. |
| PTAttendance.FieldDegradesAlone | PT_attendance.py:134-140 | Each scraped field depends only on its own pattern's matches, and becomes `N/A` alone when its pattern is missing. |
| PTAttendance.AttendanceFields | PT_attendance.py:99-105 | A welcomed check-in page yields exactly the five attendance fields. |
| PTAttendance.IndexFields | PT_attendance.py:120-127 | A welcomed index page yields exactly the six index fields. |
| PTAttendance.AttendanceCall | PT_attendance.py:91-110 | `attendance()` raises only on a non-request exception. Its status is true only for a fetched page containing `欢迎回来`, with the five fields. A request error or a missing sentinel gives status false. |
| PTAttendance.IndexCall | PT_attendance.py:112-132 | `index_info()` follows the same rules with the six index fields. |
| PTAttendance.MergedInfo | PT_attendance.py:232-244 | The update writes exactly the eleven info keys. |
| PTAttendance.MergedInfoIsExtracted | PT_attendance.py:232-244 | After two successful calls, the `.get` defaults never apply: the values written are the scraped ones. |
| PTAttendance.Completed | PT_attendance.py:230-244 | A completed site is dated today. Its info gains the eleven keys and keeps its other keys. |
| PTAttendance.FetchBoth | PT_attendance.py:227-228 | Fetching both pages sends between two and six requests, all for this site, round and its two URLs. |
| PTAttendance.Record | PT_attendance.py:218-259 | A visit sets `need_push` and appends one fragment for the site. Its entry is completed iff both statuses are true, and otherwise it is unchanged with a failure fragment. The requests are appended to the log. |
| PTAttendance.Visit | PT_attendance.py:204-259 | A name with no registered config or no cookie is skipped. A name with no entry raises `KeyError`, and one dated today is skipped. Otherwise there is one fragment, only this site's entry may change, and it becomes today iff the report is a success. An exhausted retry ends the run. |
| PTAttendance.RecordedVisit | PT_attendance.py:218-259 | A recorded visit extends the log with this round's requests, leaves other entries alone, and dates the site today exactly on success. |
| PTAttendance.RunLoopRaisedStays | PT_attendance.py:204-228 | Once a visit raises, the whole loop has raised. |
| PTAttendance.RunLoopEntries | PT_attendance.py:204-244 | After the loop every entry is either unchanged or dated today. A changed entry is for a listed site that was eligible at the start. |
| PTAttendance.EligibleNowWasEligible | PT_attendance.py:204-216 | A site still eligible after the loop was eligible at the start and is unchanged. |
| PTAttendance.RunLoopRequests | PT_attendance.py:204-228 | Every request the loop sent belongs to the round of a listed site that was eligible at the start. |
| PTAttendance.RunLoopPush | PT_attendance.py:218 | `need_push` holds iff some listed site was eligible at the start. |
| PTAttendance.RunLoopFragments | PT_attendance.py:246-259 | Every fragment belongs to a listed, initially eligible site. A success fragment means that site is now dated today. |
| PTAttendance.FragmentsStep | PT_attendance.py:246-259 | One visit keeps every fragment accounted for. |
| PTAttendance.RunLoopNothingToDo | PT_attendance.py:204-216 | When no listed site is eligible or missing, the loop changes nothing and sends nothing. |
| PTAttendance.RunLoopNoMissing | PT_attendance.py:214 | A loop that finishes met no registered, cookied site without an entry. |
| PTAttendance.VisitKeepsDealtWith | PT_attendance.py:230-259 | A visit never undoes an earlier site's completion or failure fragment. |
| PTAttendance.VisitDealsWith | PT_attendance.py:230-259 | After a visit to a cookied site, that site is dated today or has a failure fragment. |
| PTAttendance.RunLoopCovers | PT_attendance.py:204-259 | Every listed, initially eligible site ends dated today or reported as failed. |
| PTAttendance.CompletedCount | PT_attendance.py:184 | The count exists iff every enabled name has an entry. It is then the number of positions of the list whose site is dated today, so it is at most the number enabled. It is 0 iff none is dated today and equals the number enabled iff all are. |
| PTAttendance.GenerateReport | PT_attendance.py:178-186 | The summary exists iff every enabled name has an entry. It reports the registry size and the number enabled. Its completed figure is the number of enabled positions whose site is dated today. |
| PTAttendance.LoadedDoc | PT_attendance.py:190-198 | The run works on the stored roster with `enables` defaulted to empty, or on the initial roster when there is no file. |
| PTAttendance.VisitSite | PT_attendance.py:204-259 | The loop body for one name computes exactly `Visit`. |
| PTAttendance.Run | PT_attendance.py:188-268 | `run()` has exactly the outcome of `RunSpec`. |
| PTAttendance.RunFinishedShape | PT_attendance.py:188-268 | A finished run keeps `total`, `enables` and the site keys. The report is the summary first, then one fragment per visited enabled site. It notifies iff some enabled site was eligible. Every request was for an eligible site, and every entry is unchanged or dated today. |
| PTAttendance.NotLeftEligible | PT_attendance.py:214-216 | A site that was dealt with without failure is no longer eligible. |
| PTAttendance.RunLoopAllDone | PT_attendance.py:204-259 | When every visit succeeded, no listed site is left eligible or missing. |
| PTAttendance.SecondRunSameDay | PT_attendance.py:214-216 | A second run on the same day after an all-success run visits nothing, sends nothing, does not notify and keeps the document. |
| LotteryRules.CommonCount | lottery_check.py:181-202 | `len(set(mine) & set(winning))` is the number of distinct shared numbers, and is at most either length. |
| LotteryRules.LevelName | lottery_check.py:267-281 | Level names are `一等奖`..`六等奖`, never `未中奖`. |
| LotteryRules.SsqPrize | lottery_check.py:267-281 | The result is no prize or a level name. It is no prize iff the blue ball misses and four to six reds do not match. |
| LotteryRules.BlueAlwaysWins | lottery_check.py:267-281 | A matching blue ball always wins something. |
| LotteryRules.SsqMiddleLevelsByTotal | lottery_check.py:267-281 | Below six reds, levels three to five depend only on the total of balls matched. |
| LotteryRules.SsqPrizeMonotone | lottery_check.py:267-281 | Matching more never gives a worse level. |
| LotteryRules.FirstGrade | lottery_check.py:303-323 | `next(...)` finds the first grade of that type. It returns none iff no grade has it. |
| LotteryRules.PrizeAmount | lottery_check.py:303-323 | No prize pays 0. |
| LotteryRules.PrizeAmountOfLevel | lottery_check.py:303-323 | Level `n` is paid from the first grade whose `type` is `n`, or 0 when there is none. |
| LotteryRules.CheckSsq | lottery_check.py:181-202 | A result exists iff there is a draw and seven numbers. It compares the first six numbers with the red balls and the seventh with the blue ball, and pays the level's amount. |
| LotteryRules.SsqPaidByGrade | lottery_check.py:181-202 | A winning `ssq` ticket has a level from one to six and is paid that grade's money. A losing one is paid 0. |
| LotteryRules.ZipMatches | lottery_check.py:204-222 | The positional match count reaches the shorter length iff all paired positions agree. |
| LotteryRules.CheckThreeD | lottery_check.py:204-222 | A result exists iff there is a draw and three numbers. It wins, paying 1040, iff all three positions match. |
| LotteryRules.Kl8LevelReadsBack | lottery_check.py:224-264 | The level `x{play}z{matches}` splits back into both numbers. |
| LotteryRules.CheckKl8 | lottery_check.py:224-264 | A result exists iff there is a draw and `play_type` numbers. The level names the play type and the distinct matches, and is paid that grade's money or 0. |
| LotteryRules.Kl8NeverNoPrize | lottery_check.py:224-264 | A `kl8` level is never `未中奖`, so every checked draw counts as a win for the history. |
| LotteryRules.Check | lottery_check.py:398-409 | The dispatcher's result carries the draw date and the ticket, with a non-empty level. |
| LotteryRules.FormatReadsBack | lottery_check.py:145-150 | A formatted number reads back as itself and contains no comma. Outside 3D it has at least two characters. |
| LotteryRules.FormatAll | lottery_check.py:144-155 | Formatting succeeds iff every token is an integer, keeping the length and order. |
| LotteryRules.LotteryNumbersMeaning | lottery_check.py:137-155 | The numbers exist iff the variable is set, non-empty and every comma-separated token is an integer. Each number reads back as its token's value. Outside 3D each number is `f"{n:02}"` of its token's value, and for 3D it is `str(n)`. |
| LotteryRules.NumbersOf | lottery_check.py:144-155 | For a given variable value: the numbers exist iff every token is an integer, with one number per token. Each is `f"{n:02}"` of its token's value outside 3D and `str(n)` for 3D. |
| Strings.Pad2TwoDigits | lottery_check.py:150 | Below 100, `f"{n:02}"` is exactly the tens digit followed by the units digit. |
| LotteryRules.FormatAllReadsBack | lottery_check.py:145-150 | Every formatted token reads back as its source token. |
| LotteryRules.FormatAllIdempotent | lottery_check.py:145-150 | Formatting already formatted numbers changes nothing. |
| LotteryRules.LotteryNumbersIdempotent | lottery_check.py:137-155 | Writing the formatted numbers back into the variable reads back the same numbers. |
| LotteryRules.ShouldCheck | lottery_check.py:99-135 | A draw is checked only when its date is non-empty, newer than the stored check date and on a draw day. A newer date is checked iff its weekday is a draw day. `strptime` failure is the only error. |
| LotteryRules.OldDrawNotChecked | lottery_check.py:118-135 | A draw not newer than the last check is never checked. |
| LotteryRules.StoredDate | lottery_check.py:367 | `s[:len(s)-3]` drops the last three characters, as Python's negative-stop slice does for short strings. |
| LotteryRules.SameDrawNotRechecked | lottery_check.py:412-422 | For a draw date carrying a three-character non-date suffix, the stored date is the bare date. The same draw is not checked again. |
| LotteryRules.BareDateRechecked | lottery_check.py:412-422 | For a draw date without a suffix, the stored date is cut short, so the same draw on a draw day is checked again. |
| LotteryRules.HtmlReportEmpty | lottery_check.py:431-445 | No results give an empty report. |
| LotteryRules.HtmlReportAppend | lottery_check.py:431-445 | The report of two result lists is the concatenation of their reports. |
| LotteryRules.HtmlReportHasFragments | lottery_check.py:431-445 | Each result's fragment occurs in the report right after the fragments of the results before it. |
| LotteryRun.Doc.With | lottery_check.py:330 | Replacing one game's entry leaves the other games and the push date alone. |
| LotteryRun.IntOf | lottery_check.py:346 | `int()` of a numeric amount is that number. |
| LotteryRun.UpdatedHistoryAsWritten | lottery_check.py:325-361 | As written, a loss moves only `last_check_date`. A win against a stored string best prize raises in the comparison, and the update is lost. |
| LotteryRun.UpdatedHistory | lottery_check.py:325-361 | A loss moves only `last_check_date`. A win appends the ticket, records the prize under the draw date and adds it to the total. The best prize is replaced only when strictly beaten. The update is lost iff an amount is not an integer. |
| LotteryRun.UpdatedHistoryKeepsBest | lottery_check.py:345-355 | The best prize stays an integer at least as large as every recorded prize. |
| LotteryRun.EmptyTypeCoversRewards | lottery_check.py:58-97 | A fresh game entry satisfies that invariant. |
| LotteryRun.StringBestLosesLaterWins | lottery_check.py:349-350 | As written, a first win paid as the string `"5"` makes a later win of 1040 go unrecorded. The corrected update records it. |
| LotteryRun.LotteryFile.constructor | lottery_check.py:54-56 | The file object starts with the given document. |
| LotteryRun.LotteryFile.UpdateHistory | lottery_check.py:325-361 | The game's entry becomes the updated one. When the update is lost, the document is unchanged. |
| LotteryRun.LotteryFile.UpdateLastDrawDate | lottery_check.py:363-375 | Only the game's `last_draw_date` changes, to the date minus its last three characters. |
| LotteryRun.LotteryFile.UpdateLastCheckDate | lottery_check.py:377-389 | Only the game's `last_check_date` changes, to the date minus its last three characters. |
| LotteryRun.LotteryFile.RecordPush | lottery_check.py:489-493 | Only `last_push_date` changes, to today. |
| LotteryRun.Recorded | lottery_check.py:420-422 | After a checked draw both dates are the stored draw date. A lost update keeps the history and total. |
| LotteryRun.CheckLotterySpec | lottery_check.py:398-428 | `check_lottery` returns the checker's result. It changes only this game's entry and never the push date. |
| LotteryRun.CheckLottery | lottery_check.py:398-428 | The method raises iff the spec says so, leaving the file alone. Otherwise it returns the result and leaves the document the spec gives. |
| LotteryRun.CheckKind | lottery_check.py:453-467 | One pass of the loop is exactly `KindStep`: skip a game without numbers, stop on an exception, and append an entry for each result. |
| LotteryRun.KindStepSkipped | lottery_check.py:466-467 | A game without configured numbers leaves the report and the document alone. |
| LotteryRun.KindStepStopped | lottery_check.py:456 | An exception while checking ends the run with the document so far. |
| LotteryRun.KindStepGoing | lottery_check.py:456-465 | A checked game appends its result, if any, and carries on with the new document. |
| LotteryRun.RunLoopStep | lottery_check.py:453 | The loop over the first `i + 1` games is the loop over `i` games, then one more step unless stopped. |
| LotteryRun.Run | lottery_check.py:447-495 | `run()` has exactly the outcome of `RunSpec`. |
| LotteryRun.StoppedStays | lottery_check.py:453-467 | Once the loop stops, later games change nothing. |
| LotteryRun.RunLoopFrame | lottery_check.py:453-467 | The loop never touches the push date, nor the entry of a game that is not configured. |
| LotteryRun.RunLoopKeepsBest | lottery_check.py:453-467 | Every game's best prize keeps covering its recorded prizes through a run. |
| LotteryRun.KindStepKeepsBest | lottery_check.py:453-467 | One step keeps that invariant. |
| LotteryRun.CheckLotteryKeepsBest | lottery_check.py:398-428 | `check_lottery` keeps it. |
| LotteryRun.RecordedKeepsBest | lottery_check.py:420-422 | Recording a checked draw keeps it. |
| LotteryRun.RunLoopEntries | lottery_check.py:453-465 | Each report entry is the check of a configured game against its latest draw. There are no more entries than games. |
| LotteryRun.RunPushGate | lottery_check.py:476-493 | The report is pushed iff the stored push date is not today, and is the HTML of the entries. Afterwards the push date is today. |
| LotteryRun.SecondRunSameDayNoPush | lottery_check.py:484-486 | A second run on the same day pushes nothing. |
| LotteryRun.RecheckSameDrawIsNoOp | lottery_check.py:412-422 | For a suffixed draw date, checking the same draw again from the updated document changes nothing. |

## Left out

- HTTP itself, headers, timeouts, `time.sleep` and the retry delay. Each GET is an input, as is the lottery API's `get_latest_lottery_info` (lottery_check.py:157-179). Its URL table (lottery_check.py:28-50) is kept only for the environment keys and draw days.
- The PT regular expressions, such as `.*?(\d+)`, `(.*?)<` and the notice `findall`, are inputs (`Scraper`). Only the FN patterns are modelled concretely: `sign=([A-Za-z0-9]+)`, the `\d+` counters, the timestamp and `(.+?)</li>`.
- Python's `\d` and `int()` are taken as ASCII. `int()` here trims the ASCII whitespace space, `\t`, `\n`, `\r`, `\v` and `\f`. The model does not cover Unicode digits, underscores, or the other whitespace Python strips: `\x1c`-`\x1f`, `\x85`, `\xa0` and the other Unicode spaces.
- `strptime(...).isoweekday()` is an input (`weekdayOf`). A date it rejects raises, which ends the lottery run.
- File I/O errors other than a missing or unparsable file, the JSON encoding, indentation and `truncate`. The model keeps documents as values.
- Malformed stored documents in the PT and lottery scripts. Only the shapes the code itself creates, plus a missing `enables` or `date_info`, are modelled.
- Logging and `print` output, and the HTML markup of the PT report. Report fragments are values: summary, success and failure. The lottery report's text is modelled.
- `QLAPI.notify` is taken to succeed. A failing notify in `lottery_check.py` would skip the push-date update.
- `_calculate_kl8_prize` (lottery_check.py:292-301) and `_write_json_data` (lottery_check.py:392-395) are never called and are not modelled.
- `run` reads `enables` from the stored document (PT_attendance.py:195, 204) and only defaults it to `[]`. It never re-derives the list from the cookies, so a stale list is used as stored, and the model does the same.
- FNAttendance.RecordFile.InitDataFile: writes the corrected `DefaultRecord`, whose `info` keys are spelt `*_attendance_times`. It does not write the `*_attention_times` keys of FN_attendance.py:126-129. So after a first complete check-in the model's `info` holds only the seven details, while the source's also keeps three stale zeros. `DefaultRecordAsWritten` is the default as written, and `DefaultKeysAsWrittenGoStale` states what it leads to (see Findings).
- FNAttendance.Initialised: a missing file becomes the corrected `DefaultRecord`, for the same reason.
- FNAttendance.CheckIn: equal to `CheckInSpec`, which starts a missing file from the corrected `DefaultRecord`, for the same reason.
- PTAttendance.SafeReSearch: states the result in terms of the `Scraper`'s matches, not of the regular expressions themselves.
- LotteryRules.PrizeAmount: the result is stated for no prize only. `PrizeAmountOfLevel` and `SsqPaidByGrade` state the amount for each level.
- LotteryRules.Check: states only the common fields. The per-game contracts are on `CheckSsq`, `CheckThreeD` and `CheckKl8`.
- LotteryRun.UpdatedHistory: the update made by the corrected comparison, which the rest of the model uses. The code as written is `UpdatedHistoryAsWritten` (see Findings).

## Findings

| source | as written | input that shows it | evidently intended | confidence | as-written member | corrected member |
|---|---|---|---|---|---|---|
| FN_attendance.py:126-129 | The default `info` spells three keys `month_attention_times`, `continue_attention_times` and `total_attention_times`. | A first complete check-in whose page has all seven details. `info` keeps the three `*_attention_times` zeros beside the new `*_attendance_times` values, and no later run updates them. | The keys spelt `*_attendance_times`, as the parser writes them, so every default is replaced. | not executed | FNAttendance.DefaultKeysAsWrittenGoStale | FNAttendance.DefaultKeysAllRefreshed |
| lottery_check.py:349-350 | `int(prize_amount) > max_reward['money']` compares with the stored best prize as it is. The stored value is the raw `prize_amount`, which can be the API's string `typemoney`. | A win whose `typemoney` is `"5"`, then a win of 1040. The second comparison is `int > str`, which raises `TypeError`. The exception is logged and the second win is never recorded. | The comparison made on integers, `int(prize_amount) > int(max_reward['money'])`. | not executed | LotteryRun.StringBestLosesLaterWins | LotteryRun.UpdatedHistory |
