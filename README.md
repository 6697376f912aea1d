# Daily study mailer — a Dafny model

The repository holds two batch jobs for a student's daily study routine.

- **The generator** (`setup.py`, class `PDFSummarizer`) reads two folders of lecture PDFs, one for pharmacology and one for anatomy. It orders each folder by the `YYYYMMDD` date at the front of the file names and pairs the two lists by position into day slots. It asks a generative model for a summary of every PDF that has text, retrying with exponential backoff. It writes one `day<NN>_<subject>.md` file per summary, an `index.json` with one entry per slot, and a fresh `progress.json`.
- **The sender** (`daily_mailer.py`, class `DailyMailer`) keeps a progress record `{current_day, last_sent_date, total_days, completed, sent_count}`. On each run a four-branch gate decides whether a day is due. The sender then loads that day's two summaries and mails them with up to three attempts and backoff. It advances the record by one day only after a confirmed delivery.

The model has five modules:

- `records.dfy` (`Records`) holds the records both jobs share. It also holds Python's `"{:02d}"` day format and the summary file name, with its round trip.
- `pytext.dfy` (`PyText`) holds the pieces of Python's `str` the generator relies on: `strip()`, `replace(".pdf", "")` and string `<`.
- `mailer.dfy` (`Mailer`) models the sender. The class `DailyMailer` has the in-memory record `progress` and its saved copy `persisted`. Its methods `ShouldSendToday`, `UpdateProgress` and `Run` follow the source branch by branch. Each is proved against the pure functions `Gate`, `Advance` and `RunSpec`. The retry loop `SendEmail` is proved against `Deliver`. Lemmas over `Replay` follow any sequence of runs.
- `generator.dfy` (`Generator`) models the generator. It covers the file-name parser `ExtractDate` and the stable sort by date key. It has the positional pairing loop `PairUp`, the retry loop `GenerateSummary` (proved against `Summarize`) and the batch loop `ProcessSlots`/`Run` (proved against `Entries`, `Written`, `SumOver` and `Plan`).
- `handoff.dfy` (`Handoff`) connects the two jobs. When `data/summaries` holds only the files of one batch, the sender finds exactly the index entries and files that batch wrote, and an uneven pair of folders stalls the schedule for good.

Inputs from the environment are parameters:

- the run's date, as an ISO string;
- the contents of `data/summaries`, as a map from file name to text;
- the outcome of each SMTP attempt, as a `bool`;
- each PDF's extracted text and the model's reply to each attempt, as an exception message or a response text;
- the answer to the confirmation prompt;
- the index timestamp.

Backoff sleeps are recorded as a list of waits instead of being slept. Saving the progress file is the assignment to `persisted`. `DailyMailer.Valid()` says the saved copy equals the record in memory after every step.

Two details of the code are easy to misread:

- Day N of N is still sent. The gate finishes only once `current_day > total_days` (daily_mailer.py:113), and update_progress sets `completed` right after the last day (daily_mailer.py:537-538). The verified example `Mailer.LastDayIsStillSent` shows this.
- The generator pauses only after an exception. An empty response is retried at once (setup.py:210-216).

Two consequences of the code are proved. First, at most one delivery happens per calendar date (`Mailer.AtMostOneDeliveryPerDay`). Second, suppose the two folders hold different numbers of PDFs, and `data/summaries` holds only the files of this batch. Then the first day lacking a PDF of the shorter subject can never be delivered, and no sequence of runs completes the schedule (`Handoff.UnevenFoldersStall`).

## Model

| member | source | states |
|---|---|---|
| Records.InitialProgress | setup.py:242-253 | the fresh record is day 1, nothing sent, no last date, not completed, sized to the given number of days |
| Records.Format02d | daily_mailer.py:123 | `{n:02d}`: the decimal numeral of n, zero-padded to two characters, a negative number keeping its sign |
| Records.SummaryFileName | setup.py:225 | the summary file name `day{day:02d}_{subject}.md`, the same in save_summary and load_summary (daily_mailer.py:123) |
| Records.Format02dRoundTrip | daily_mailer.py:123 | the `{day:02d}` numeral reads back as the day it was made from, for every integer |
| Records.SummaryFileNameRoundTrip | setup.py:225 | `day{day:02d}_{subject}.md` determines the day and the subject it was made from |
| Records.SummaryFileNameInjective | daily_mailer.py:121-124 | two (day, subject) pairs that share a summary file name are the same pair |
| Records.SummaryFileNamesDiffer | setup.py:316-347 | different days or subjects are never saved under the same file |
| PyText.StrLt | setup.py:172-180 | Python's `<` on the date-key strings: lexicographic by code point, a proper prefix first |
| PyText.Strip | setup.py:211 | `strip()` returns a slice of its argument with only whitespace around it and none at its ends |
| PyText.RemoveAll | setup.py:168 | `replace(".pdf", "")` never lengthens the name, shortens it by at least four characters when ".pdf" occurs in it, and leaves a name without ".pdf" unchanged |
| PyText.RemoveAllTrailing | setup.py:168 | a name with no ".pdf" in it followed by ".pdf" comes back as exactly that name |
| Mailer.Gate | daily_mailer.py:98-119 | the branch should_send_today takes, in order: completed, sent today, past the end, due; due exactly when not completed, not sent today and current_day <= total_days |
| Mailer.Advance | daily_mailer.py:529-540 | the record update_progress leaves for a date (its fields are stated by AdvanceFields) |
| Mailer.AdvanceFields | daily_mailer.py:529-540 | update_progress adds exactly 1 to current_day and sent_count, sets last_sent_date to today, keeps total_days, and sets completed exactly when the new day passes total_days (else keeps it) |
| Mailer.AdvanceClosesTheDay | daily_mailer.py:107-110 | after a delivery on a date, the gate refuses any further run on that date |
| Mailer.InitialIsConsistent | daily_mailer.py:72-78 | a fresh record satisfies the schedule invariant (cursor counts deliveries, stays within total_days + 1, completed only past the end) |
| Mailer.DeliverFromStopsAtFirstSuccess | daily_mailer.py:506-527 | from any attempt on, the retry loop succeeds iff a later attempt within the budget is accepted, stops at the first accepted one, and waits 2^attempt after each failure but the last |
| Mailer.Deliver | daily_mailer.py:506-527 | send_email's loop returns true iff one of the first retry_count attempts succeeds, stops at the first success, makes no attempt when retry_count <= 0, and waits 2^0, …, 2^(attempts-2) seconds |
| Mailer.ThreeFailuresWaitOneThenTwo | daily_mailer.py:518-525 | three failed attempts report failure after waits of 1 and 2 seconds |
| Mailer.SendEmail | daily_mailer.py:490-527 | the loop method returns the success flag and the waits of `Deliver` |
| Mailer.LoadSummary | daily_mailer.py:121-131 | load_summary: the contents of `day{day:02d}_{subject}.md` in data/summaries, or nothing when the file is absent |
| Mailer.RunSpec | daily_mailer.py:542-577 | one run's outcome, resulting record and waits: skip on the gate, stop on a missing or empty summary or a zero total, else send with 3 attempts and advance only on success |
| Mailer.CompletedSkips | daily_mailer.py:103-105 | a completed record skips every run and is left unchanged, before any other check |
| Mailer.SentTodaySkips | daily_mailer.py:108-110 | a record not completed but sent today skips whatever its current day and is left unchanged |
| Mailer.FinishingIsIdempotent | daily_mailer.py:113-117 | past the last day the gate sets completed and skips; every later run on any date then skips and changes nothing |
| Mailer.OnlyFinishOrDeliveryChangesProgress | daily_mailer.py:548-577 | a run changes the record only by marking it completed or by delivering a day |
| Mailer.DeliveryAdvancesByOne | daily_mailer.py:569-574 | a delivery sends the current day, needs the gate due, both summaries non-empty and an accepted attempt, and leaves update_progress's record |
| Mailer.FailuresLeaveProgress | daily_mailer.py:555-577 | a missing or empty summary, or a send failing every attempt, leaves the record exactly as it was |
| Mailer.AtMostOneDeliveryPerDay | daily_mailer.py:107-110 | after a delivery, a second run on the same date skips and changes nothing |
| Mailer.RunKeepsConsistent | daily_mailer.py:542-577 | a run keeps the schedule invariant, and a delivered day lies between 1 and total_days |
| Mailer.RunMovesByOne | daily_mailer.py:572-574 | a run moves the cursor by one exactly when it delivers; sent_count moves with it and total_days stays |
| Mailer.ReplayDeliversInOrder | daily_mailer.py:542-577 | across any sequence of runs the delivered days are consecutive from the starting day, none skipped or repeated, and the cursor never moves back |
| Mailer.ReplayKeepsConsistent | daily_mailer.py:536-538 | from a consistent record no sequence of runs delivers a day outside 1..total_days |
| Mailer.MissingSummaryStalls | daily_mailer.py:557-562 | a day whose summary no run finds is never delivered and the cursor never passes it |
| Mailer.GapBlocksCompletion | daily_mailer.py:557-562 | such a day within the schedule keeps the record from ever completing |
| Mailer.GetDayInfo | daily_mailer.py:140-145 | get_day_info returns the first index entry whose day matches, or nothing exactly when no entry matches |
| Mailer.Footer | daily_mailer.py:169-170 | the footer's `remaining = total_days - day` and `next_day = day + 1 if day < total_days else day` |
| Mailer.FooterMatchesAdvance | daily_mailer.py:169-170 | the footer's remaining count equals the days still to send, and its next day is the record's next day except on the last day |
| Mailer.DailyMailer.constructor | daily_mailer.py:54-83 | without a progress file the record is day 1 of 20, not completed, sent_count 0, no last date, and is saved; otherwise the stored record is loaded |
| Mailer.DailyMailer.SaveProgress | daily_mailer.py:85-88 | the saved copy becomes the given record |
| Mailer.DailyMailer.ShouldSendToday | daily_mailer.py:98-119 | returns true exactly when the gate is due; the completed and sent-today branches change nothing; the past-the-end branch sets completed and saves it; a true answer changes nothing |
| Mailer.DailyMailer.UpdateProgress | daily_mailer.py:529-540 | the record becomes its advance on today, field by field, and is saved |
| Mailer.DailyMailer.Run | daily_mailer.py:542-577 | the outcome, new record and waits are those of `RunSpec`, and the saved copy matches the record |
| Generator.ExtractDate | setup.py:161-168 | a name matching `\d{8}_(.+)\.pdf` from its start gives its date and the title up to the last reachable ".pdf"; any other name gives "00000000" and the name with every ".pdf" removed |
| Generator.LastDatedAt | setup.py:163 | the regex's greedy backtracking: the last position at or before k where the title group can end before ".pdf", or none |
| Generator.TextAfterPdfIsIgnored | setup.py:163 | the match is anchored only at the start: text after the title's ".pdf" that holds no other ".pdf" is ignored |
| Generator.UndatedNameTitle | setup.py:161-168 | an undated `title.pdf` (no date match anywhere, no other ".pdf") gets the date "00000000" and the title `title` |
| Generator.ExtractDateRoundTrip | setup.py:161-167 | `date_title.pdf` with an 8-digit date and a one-line title gives back that date and title |
| Generator.DateKeyIsEightDigits | setup.py:163-168 | the date key is always eight decimal digits |
| Generator.SortBy | setup.py:172-180 | Python's stable `sorted(..., key=...)`, as insertion of each file before the first file whose key is not below its own |
| Generator.SortByDate | setup.py:172-180 | one folder sorted by date key: non-decreasing keys, a permutation of the folder, listing order kept among equal keys |
| Generator.SortByCorrect | setup.py:172-180 | sorting by key yields a non-decreasing, permuted list that keeps the original order among equal keys |
| Generator.UndatedComeFirst | setup.py:172-180 | files without a date prefix come before every dated file |
| Generator.Pairing | setup.py:183-192 | there are max(#pharmacology, #anatomy) slots; slot i holds the i-th source of each list or none; no slot is empty |
| Generator.PairUp | setup.py:183-192 | the pairing loop builds exactly the positional pairing |
| Generator.ScanPdfFiles | setup.py:170-192 | scan_pdf_files pairs the two date-sorted folders by position |
| Generator.ScanCorrect | setup.py:170-192 | the slots number max of the folder sizes, none is empty, and each subject's list is a sorted permutation of its folder |
| Generator.BuildPrompt | setup.py:197 | the prompt is at most the template plus 15000 characters of content |
| Generator.PromptSeesOnlyTheHead | setup.py:197 | two documents that agree on their first 15000 characters give the same prompt |
| Generator.Summarize | setup.py:199-221 | the result is the stripped text of the first non-empty response; if none, the error placeholder when the last attempt raised and the unknown-error placeholder, after all `max_retries` attempts, otherwise; waits only after an exception on a non-final attempt |
| Generator.RetriedUntilText | setup.py:199-216 | an exception, an empty response, then text gives that text stripped after one 1-second wait |
| Generator.ThreeExceptions | setup.py:213-219 | three exceptions give the last error's placeholder after waits of 1 and 2 seconds |
| Generator.GenerateSummary | setup.py:194-221 | the loop method builds the truncated prompt and returns the text and waits of `Summarize` |
| Generator.Entries | setup.py:302-355 | file_info has one entry per slot, in order, entry k being that slot's day_info at day k + 1 |
| Generator.ProcessSource | setup.py:306-353 | one subject of a slot: nothing without a source, a failure on empty text, else the summary with its index reference |
| Generator.ProcessSlots | setup.py:297-355 | the batch loop builds file_info, the written summaries and both counters as `Entries`, `Written` and `SumOver` give them |
| Generator.Run | setup.py:255-360 | run stops without PDFs or without a "y", else produces the index, the initial progress record, the summaries and the counters of the plan |
| Generator.CallsCountSources | setup.py:290-291 | total_calls equals the number of source PDFs, one per non-empty slot side |
| Generator.GeneratedCounts | setup.py:290-360 | success_count + fail_count == total_calls; index total_days == len(file_info) == #slots == the progress record's total_days; the progress record is the initial one |
| Generator.PlanFiles | setup.py:355-360 | the index lists the slots' entries and the summaries written are those of the slots |
| Generator.Confirmed | setup.py:284-285 | the batch goes on exactly when the answer lowercases to "y" |
| Generator.Plan | setup.py:255-360 | the whole batch: no PDFs, cancelled, or the index, initial progress record, summaries written and the three counters |
| Generator.BatchOutcomes | setup.py:263-287 | the batch finds no PDFs exactly when both folders are empty, and generates exactly when some PDF exists and the answer is yes |
| Generator.IndexEntries | setup.py:302-355 | entry k has day k + 1 and a subject key exactly when the slot has that source with non-empty text; the key names the source, `day{NN}_{subject}.md` and the title |
| Generator.WrittenFiles | setup.py:310-347 | the file of a slot's subject is written exactly when that source was summarised, and holds that summary |
| Generator.WrittenMatchesIndex | setup.py:316-347 | the file names the index records are exactly the files save_summary wrote, each holding the generated summary |
| Handoff.GeneratedProgressStartsTheSchedule | setup.py:359-360 | the progress record of a finished batch has at least one day, is consistent, and day 1 is due on any date |
| Handoff.EntryFoundByDay | daily_mailer.py:140-145 | get_day_info finds the generated entry of every day slot |
| Handoff.SenderFindsSlot | daily_mailer.py:121-131 | on a folder holding just this batch's files, load_summary finds a file exactly when the index entry references it, under the recorded name, holding the summary |
| Handoff.UnevenFoldersLeaveAGap | setup.py:183-192 | with folders of different sizes, the day after the shorter list ends has no summary of the shorter subject |
| Handoff.UnevenFoldersStall | daily_mailer.py:557-562 | with folders of different sizes, no sequence of sender runs on a folder holding just this batch's files gets past that day or completes |

## Left out

- SMTP session, login and message building (daily_mailer.py:492-511): each attempt is a `bool` outcome. The recipient list is not modelled.
- The generative-model API, PyPDF2 text extraction and its whitespace regex cleanup (setup.py:138-159): each PDF carries its extracted text and one reply per attempt.
- Configuration checks and loading: dotenv, the missing-credential `ValueError`s (daily_mailer.py:59-66, setup.py:35-37), and the missing-index `FileNotFoundError` (daily_mailer.py:92-93). These are fatal start-up errors. `__init__` runs load_progress before load_index (daily_mailer.py:56-57), so without progress.json the default record is saved (daily_mailer.py:79) even when the index is then found missing. The model does not capture that saved record.
- JSON reading and writing and directory globbing: the progress file is the `persisted` field, and folder listings and `data/summaries` are input sequences and maps. A JSON record missing a key (a `KeyError` in the source) cannot occur in the typed record.
- The HTML template, the CSS, markdown rendering, the previous day's quiz extraction regexes (daily_mailer.py:147-163) and the review section: these are text rendering with no state effect. Only the footer arithmetic is kept.
- The progress percentage (daily_mailer.py:168) and the cost estimate (setup.py:292): these are floating point. The one effect of the percentage kept is its division by zero when total_days is 0, modelled as the outcome `RenderFailed` with the record unchanged, instead of an exception reaching the top level.
- Mailer.DailyMailer.Run: it passes one date to both the gate and the advance. The source reads `date.today()` twice, in should_send_today (daily_mailer.py:100) and in update_progress (daily_mailer.py:531). A run that crosses midnight therefore records the next date as `last_sent_date`, and the next day's run skips (daily_mailer.py:108). The model does not capture this.
- Handoff.SenderFindsSlot and Handoff.UnevenFoldersStall: they assume `data/summaries` holds only this batch's files. The generator never clears that folder (setup.py:136) and save_summary only overwrites (setup.py:223-229). A leftover `dayNN_<subject>.md` from an earlier batch can fill a gap day, and load_summary then sends it.
- Real sleeping, `date.today()`, `datetime.utcnow()`, `input()`, tqdm and console output: the date, timestamp and answer are parameters.
- The 0.5-second pause after each processed source (setup.py:328, 353) is not modelled at all. The backoff waits of generate_summary (setup.py:216) are returned only by `Generator.GenerateSummary`; the batch (`Generator.ProcessSource`, `Generator.Run`, `Generator.Plan`) discards them and reports no waits.
- Mailer.SendEmail: it requires one outcome per attempt (`retryCount <= |outcomes|`). This is how the environment is supplied, not a demand of the source.
- Generator.GenerateSummary: it requires one reply per attempt, for the same reason.
- Generator.ExtractDate: `\d` is modelled as the ASCII digits 0-9. Python's `str` regex also accepts other Unicode decimal digits.
- Concurrent invocations on the same day: the source does not guard against them, and the model is single-threaded.
