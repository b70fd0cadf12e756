# Flight-deal monitor, modelled in Dafny

`monitor.py` runs one pass of a flight-deal monitor (`monitor_once`):

1. It reads the Monitors tab of a Google Sheet and keeps the rows whose
   `Active` cell says yes.
2. For each active row it asks an OpenAI model for deals. It pulls the
   `{"deals": [...]}` fragment out of the reply and picks the deal with the
   lowest `price_per_person_usd`.
3. It writes that price and booking link back into the row.
4. It sends an e-mail alert when the price is within the row's
   `MaxPricePerPersonUSD`, or within 9999 when that cell is blank.
5. Each row leaves one note (`no_deals_found`, `alert_sent`,
   `checked_no_alert` or `gpt_error`). The run ends by appending a Run_Log
   row: `completed`, the number of monitors, and the notes joined by `"; "`.
   With no active monitor it logs only `no_active_monitors` / `nothing_to_scan`.

The model has six modules, one file each:

- `values.dfy` (`Values`): `Option`, decoded JSON values, Python truthiness.
- `text.dfy` (`Text`): `find`, `strip`, `upper`, `join` and `split` with Python's meaning.
- `sheet_rows.dfy` (`SheetRows`): decoding the Monitors grid, as `read_monitors` does after its API call. `ReadMonitors` keeps the source's loop.
- `deal_parser.dfy` (`DealParser`): `extract_deals_from_gpt`.
- `best_deal.dfy` (`BestDeal`): `sorted(deals, key=...)[0]` and the ceiling comparison.
- `monitor_run.dfy` (`MonitorRun`): `monitor_once`.

In `MonitorRun` the outside world is an environment `Env`:

- `reply(p)` is what the model call returns;
- `sheetOk(p)` says whether a Sheets write succeeds;
- `smtpOk(p)` says whether sending the mail succeeds;
- `loads` is `json.loads`;
- `toFloat` is `float` on a string.

`p` is the index, in the run's trace, of the event that models the call. A run is the trace of calls it makes (`CallGpt`, `WriteRow`, `SendAlert`, `AppendRunLog`) plus whether it completed or an exception left `monitor_once`. `MonitorOnce` and `ScanMonitors` keep the source's loop. They are proved equal to the functional definitions `MonitorRunSpec` and `RunRows`, and the properties are proved about those definitions.

The run-level lemmas are stated for any row body `step` that has the shape `ProcessRow` is proved to have (`StepShaped`). `ProcessRowShaped` shows that the real row body has that shape, and `MonitorRunSpec` uses the real row body.

What the code does at its edges, which the model follows:

- Extraction is the single regular expression `\{"deals".*?\]` plus an appended `}`, then `json.loads`. Any failure gives `[]`.
- A deal without a `price_per_person_usd` makes the sort's key lookup raise, so the row ends in the `except` branch (`gpt_error`).
- A single deal is never compared by `sorted`. Its price, whatever it is, is written to the row first. Only then does `<=` against the ceiling raise if the price is not a number, and the row gets its blanking write and `gpt_error`.
- Two or more deals whose prices are all numbers, or all strings, sort without error. With string prices the row is written with the least string, and then the `<=` against the float ceiling raises (`gpt_error`). Mixed price kinds make the sort itself raise before any write.
- A ceiling cell that `float` rejects makes the comparison raise, so the row ends in `gpt_error`. Only a missing or empty cell uses 9999.
- If the blanking write inside the `except` branch fails, the exception leaves `monitor_once` and no Run_Log row is appended (`CrashedRun`).

## Model

| member | source | states |
|---|---|---|
| Text.IndexOf | monitor.py:131 | The result is the first index at or after `from` where the literal occurs; `None` only when it occurs nowhere after `from` |
| Text.TrimStartSpec | monitor.py:52 | `lstrip` keeps a suffix that starts with a non-space and removes only whitespace |
| Text.TrimEndSpec | monitor.py:52 | `rstrip` keeps a prefix that ends with a non-space and removes only whitespace |
| Text.StripBounds | monitor.py:52 | `strip()` returns a slice of its input with only whitespace cut from both ends, and non-space ends |
| Text.StripPadded | monitor.py:52 | Stripping a core padded with whitespace on both sides gives back exactly the core |
| Text.UpperSpec | monitor.py:52 | `upper()` keeps the length and upper-cases character by character |
| Text.SplitJoin | monitor.py:224 | Splitting `"; ".join(parts)` on `"; "` gives the parts back when no part contains `;` |
| SheetRows.RowRecordKeys | monitor.py:50 | The dict built from the headers has exactly the headers as keys |
| SheetRows.RowRecordValues | monitor.py:50 | A header maps to the cell under its last column; a row shorter than the headers gives `""` |
| SheetRows.LookUpRecord | monitor.py:50 | Searching the headers from the right finds exactly what the dict comprehension stores |
| SheetRows.GetReadsFields | monitor.py:50-52 | `row_dict.get(key, "")` is the dict's value when the key is present, and `""` otherwise |
| SheetRows.DecodeFields | monitor.py:47-51 | A decoded row has every header except `_row_num` as a key, mapped to its last column's cell or `""`, and carries the given row number |
| SheetRows.ActiveIffPaddedYes | monitor.py:52 | The Active test holds iff the cell is a case-insensitive `yes` surrounded only by whitespace |
| SheetRows.ReadMonitors | monitor.py:42-56 | The loop returns the active decoded rows as `ActiveMonitors` defines them, and every returned monitor is active |
| SheetRows.KeepActiveSound | monitor.py:52-53 | Every kept monitor is active and is the row found at its own row number |
| SheetRows.KeepActiveOrdered | monitor.py:49-53 | Kept monitors appear in increasing row order |
| SheetRows.KeepActiveComplete | monitor.py:52-53 | Every active row is kept |
| SheetRows.ActiveMonitorsSound | monitor.py:42-53 | A grid with at most one row gives no monitor; each monitor is the active decoded grid row `values[rowNum - 1]`, with `2 <= rowNum <= len(values)` |
| SheetRows.ActiveMonitorAt | monitor.py:47-53 | The `k`-th monitor returned is the decoded, active grid row at its row number |
| SheetRows.ActiveMonitorsOrdered | monitor.py:49-53 | Row numbers strictly increase along the result |
| SheetRows.ActiveMonitorsComplete | monitor.py:49-53 | No data row whose Active cell says yes is missing from the result |
| DealParser.MatchSpanIsSearch | monitor.py:131-135 | The two literal searches find a span iff the regex matches; the span is the leftmost, shortest match |
| DealParser.ExtractDeals | monitor.py:130-142 | The result is the `deals` entry exactly when `json.loads` of the matched span plus `}` returned an object that has one; in every other case it is `[]` |
| DealParser.ExtractDegrades | monitor.py:131-142 | The result is `[]` when there is no marker, no regex match, a parse failure, a non-object, or no `deals` key |
| DealParser.ParserInputOfReply | monitor.py:131-138 | For prose without `{`, then the marker, a body without `]`, a `]` and any tail, the parser receives the marker, body, `]` and `}` |
| BestDeal.KeyLeTotal | monitor.py:210 | Any two sort keys are ordered one way or the other |
| BestDeal.KeyLeTrans | monitor.py:210 | The key order is transitive |
| BestDeal.FirstMinIndex | monitor.py:210 | The index holds a least key, and every key before it is strictly greater |
| BestDeal.InsertByKeySorted | monitor.py:210 | Inserting into a key-sorted list keeps it sorted; the head is the new element if its key is not larger |
| BestDeal.InsertByKeyPermutes | monitor.py:210 | Insertion adds exactly the new element |
| BestDeal.SortByKeySorted | monitor.py:210 | The reference stable sort orders by key |
| BestDeal.SortByKeyPermutes | monitor.py:210 | The reference stable sort is a permutation of its input |
| BestDeal.SortByKeySpec | monitor.py:210 | The reference stable sort is ordered by key and is a permutation |
| BestDeal.SortByKeyHead | monitor.py:210 | The head of the stable sort is the element at the first least key |
| BestDeal.SelectBest | monitor.py:205-210 | No deals iff `deals` is falsy; a best deal iff it is a non-empty list whose prices sort; a lone deal is chosen as is; with two or more, the chosen price is at most every price and strictly below the price of every deal before it (the first cheapest) |
| BestDeal.BestIsFirstCheapest | monitor.py:210 | The chosen deal's price is `<=` every price and strictly below every earlier one |
| BestDeal.BestIsFirstCheapestNumber | monitor.py:210 | The same for numeric prices, stated with `<=` and `<` on the numbers |
| BestDeal.BestIsSortedHead | monitor.py:210 | The chosen deal is element 0 of the stable sort of the deals by price |
| BestDeal.CeilingOf | monitor.py:213 | The ceiling is 9999 when the row dict has no `MaxPricePerPersonUSD` or an empty one, and otherwise `float` of that cell, which may fail |
| BestDeal.ThresholdRule | monitor.py:213 | The comparison raises exactly when the price is not a number or a non-empty ceiling cell does not parse; an alert is due exactly when the price is at most the ceiling (9999 for a missing or empty cell) |
| MonitorRun.Recover | monitor.py:219-222 | The handler appends one blanking write and ends the row in `gpt_error`, or aborts the run when that write fails |
| MonitorRun.ProcessRow | monitor.py:202-222 | A row calls the model, writes its row next, then only writes or mails; at most 4 events; `gpt_error` ends with a successful blanking write |
| MonitorRun.HandleDeals | monitor.py:204-211 | The same shape for the `try` body after the reply |
| MonitorRun.HandleBest | monitor.py:211-217 | The same shape for the `try` body from the row update on |
| MonitorRun.NoDealsFoundIff | monitor.py:204-208 | `no_deals_found` iff the reply yields falsy deals and the blanking write succeeds; the row's events are then the call and one blank write |
| MonitorRun.AlertSentIff | monitor.py:210-215 | `alert_sent` iff a linked best deal is within the ceiling, the update succeeds, the mail has its keys and goes out; the events are then call, update, mail |
| MonitorRun.CheckedNoAlertIff | monitor.py:210-217 | `checked_no_alert` iff a linked best deal is above the ceiling and the update succeeds; no mail is sent |
| MonitorRun.RecoverAlert | monitor.py:219-222 | The handler sends no mail of its own |
| MonitorRun.HandleBestAlert | monitor.py:211-214 | After the best deal is chosen, a mail is attempted iff the update succeeded, the price is within the ceiling and the deal has every mail key |
| MonitorRun.AlertAttemptIff | monitor.py:202-222 | A mail is attempted iff a linked best deal was written, is within the ceiling and has every mail key |
| MonitorRun.AlertCarriesBest | monitor.py:210-214 | The mail carries the best deal, right after the row was updated with its price and link |
| MonitorRun.ProcessRowShaped | monitor.py:202-222 | The real row body has the shape the run-level lemmas assume |
| MonitorRun.RowEventsRows | monitor.py:203-222 | A row's events call the model exactly once, for that row, and write that row |
| MonitorRun.RunRowsTags | monitor.py:187-223 | A loop that completes has one note per monitor; an aborted loop has fewer |
| MonitorRun.RunRowsTagOf | monitor.py:188-222 | The `k`-th note is the outcome of monitor `k`, processed right after the earlier monitors' events |
| MonitorRun.RunRowsCalls | monitor.py:188-203 | The model is asked about exactly the reached monitors' rows, in order |
| MonitorRun.RunRowsWrites | monitor.py:188-222 | Every reached monitor's row is written |
| MonitorRun.RunRowsNoRunLog | monitor.py:187-223 | The loop itself never appends to the run log |
| MonitorRun.RunRowsAbortTail | monitor.py:219-222 | The loop stops early only after a failed blanking write, which is its last event |
| MonitorRun.RunRowsNoAbort | monitor.py:219-222 | When every Sheets write succeeds, the loop runs all monitors |
| MonitorRun.NotesRoundTrip | monitor.py:224 | The `"; "`-joined summary reads back to the notes, in order |
| MonitorRun.NoMonitorsRun | monitor.py:181-185 | With no active monitor, the only event is the `no_active_monitors`, 0, `nothing_to_scan` log |
| MonitorRun.CompletedRun | monitor.py:187-226 | A completed loop: one note per monitor; one `completed` log with the monitor count and joined notes, as last and only log event; every monitor asked once, in order, and written |
| MonitorRun.CrashedRun | monitor.py:219-226 | An aborted loop crashes the run with no log entry, right after a failed blanking write |
| MonitorRun.CrashedRunReached | monitor.py:188-222 | Before a crash, the reached monitors were asked about in order and each was written |
| MonitorRun.RunLogNotes | monitor.py:224-226 | The logged summary of a completed loop reads back to one note per monitor |
| MonitorRun.ReliableSheetsComplete | monitor.py:181-226 | When every Sheets write succeeds, the run completes and the loop runs all monitors |
| MonitorRun.ScanMonitors | monitor.py:187-223 | The loop produces exactly the events, notes and abort flag of `RunRows` |
| MonitorRun.MonitorOnce | monitor.py:179-227 | The run after the Sheets read is `MonitorRunSpec` of the active monitors of the grid |
| MonitorRun.RunOf | monitor.py:181-226 | The run starts with the loop's trace; a completed run ends with a successful run-log append that carries the monitor count |
| MonitorRun.RunOfEnds | monitor.py:181-226 | For any row body of the right shape: the run completes exactly when its last event is a successful run-log append; a crash follows a failed run-log append or blanking write; a completed run logs `nothing_to_scan` for no monitors, or `completed` with the count and one readable note per monitor after asking about every monitor in order |
| MonitorRun.MonitorRunSpec | monitor.py:181-226 | The same ending rules for `monitor_once` with its real row body |

## Left out

- Configuration loading (`load_config`) and the Sheets client (`get_sheets_service`) are file and network set-up.
  - The Sheets read in `read_monitors` (lines 35-40) is not modelled either. Its result, the grid `values`, is the model's input, so the `A1:O1000` range limit is not represented.
- The Sheets writes (`update_monitor_row`, `append_run_log`) are trace events whose success comes from `sheetOk`.
  - Their timestamps (lines 61 and 75), the target ranges and the third written cell are left out.
  - An error reading the configuration inside them counts as a failed write.
- `call_gpt_web` is replaced by the `reply` oracle: reply text, or an exception.
  - The prompt text (lines 194-200) and the `row.get` lookups that fill it are left out.
  - So are the collection of output chunks and the missing-API-key error; that error is one more `Raised` reply.
- `send_email_alert` is a `SendAlert` event whose success comes from `smtpOk`.
  - The model checks that the deal has the keys the mail reads (`EmailReady`).
  - The subject and HTML body, the SMTP session and the configuration lookups are left out. They are folded into `smtpOk`.
- `json.loads` is the `loads` oracle and `float(str)` is the `toFloat` oracle. How they parse is not modelled.
- Numbers are exact reals.
  - Float rounding, `NaN` and `Infinity` are not modelled.
  - A JSON boolean counts as 0 or 1, as in Python.
- BestDeal.SelectBest: sort keys that Python can order but are neither numbers nor strings (for example, all lists) are treated as raising.
- Text.UpperChar: `str.upper` is modelled only for `a`-`z` and U+017F, which upper-cases to `S`. No other character upper-cases into `Y`, `E` or `S` as a single character, so the Active test is exact.
- SheetRows.Get: lookups of `_row_num` are not modelled. The source's row number is the `rowNum` field, and the model never looks that key up.
- `print` logging is left out.
- Exceptions that `except Exception` does not catch (`BaseException`) are not modelled.
- The run-level lemmas take the row body as a parameter `step`. They rely only on `StepShaped`, and `ProcessRowShaped` proves that `ProcessRow` satisfies it.
