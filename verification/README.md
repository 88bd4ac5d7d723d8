# Launcher and expense bot, modelled in Dafny

This project models the decision and translation logic of two small Go
programs and proves properties of it.

- **papermc-launcher** supervises a Minecraft server process.
  - Its scheduling worker picks the next access-control or backup event from a weekly schedule.
  - Its output analyzer answers one listen request at a time with the first output line containing the query.
  - Its event loop runs the backup saga and the close, open and warn actions, and dispatches console lines.
  - Its configuration converters read and write weekday names, `HH:MM` day times and player kinds.
- **financer-bot** keeps a per-chat daily allowance.
  - `ParseMessage` turns a chat message into dated expense records.
  - The message handler checks the chat topic, numbers the records and feeds them to `ChatProfile.ConsumeRecord`.
  - `ConsumeRecord` updates the balance; `Describe` renders it for the reply.

Files:

| file | module | contents |
|---|---|---|
| `wrappers.dfy` | `Wrappers` | `Option` and `Result` |
| `gotext.dfy` | `GoText` | the parts of Go's `strconv`, `strings` and `fmt` the programs use, on ASCII text |
| `config.dfy` | `LauncherConfig` | time units, `Weekday`, `DayTime`, `PlayerType` |
| `scheduler.dfy` | `Scheduler` | the schedule resolver as written |
| `scheduler_intended.dfy` | `IntendedScheduler` | the resolver as evidently intended (see Findings) |
| `correlation.dfy` | `Correlation` | the output analyzer's single-slot matching rule, as a class |
| `supervisor.dfy` | `Supervisor` | backup saga, access actions, console dispatch, as a class recording its steps |
| `expenses.dfy` | `Expenses` | dates, records, `ParseMessage` |
| `ledger.dfy` | `Ledger` | `ChatProfile`: `ConsumeRecord`, `Describe`, the message handler |

How the model represents the system:

- Instants and durations are integers counting nanoseconds.
- The current instant, today's local midnight and its weekday are inputs of the resolver.
- The outside world becomes parameters.
  - The archive step's outcome is a parameter.
  - The listing line the warn action waits for is a parameter.
  - The receive time of a chat message is a parameter.
- The supervisor's effects are an ordered trace of steps:
  - a listen request taken by the analyzer;
  - a line written to the process;
  - the archive, refresh and launch steps.

Where the system's documented behaviour and its code disagree, the model follows the code:

- The backup saga returns the archive error at once. `save-on` is then never written, so autosave stays disabled.
- `CloseAccess` writes only `fwhitelist remove <player>` for each player. It writes no kick command. `Players` is a list of plain nicknames in `launcher.go`.
- With the example Monday window 08:00–22:00 and a 30-minute warning, a call at 21:00 resolves to `(Warn, 22:00)`. It does not resolve to `(Warn, 21:30)` (see Findings).
- Eight scan iterations give the same decision as two, not as one. `Scheduler.PassesSettle` proves this. The first iteration can choose `CloseAccess` and the second turn it into `Warn`; `Scheduler.ExampleWarnReplacesClose` shows a case.

## Model

| member | source | states |
|---|---|---|
| GoText.NatToDecimalValue | financer-bot/storage.go:41 | reading back the decimal digits `%v` writes for a natural number gives the number |
| GoText.IntToDecimalParses | financer-bot/storage.go:41 | the decimal text of any integer, sign included, parses back to it |
| GoText.SignedDigitsParse | financer-bot/storage.go:41 | a non-empty digit string parses to its value, and with a leading minus to the negated value |
| GoText.ParseInt32 | financer-bot/main.go:87 | `strconv.ParseInt(s, 10, 32)` succeeds only with a value in the 32-bit range, equal to the signed decimal the text writes |
| GoText.ParseInt32RoundTrip | financer-bot/main.go:87 | every 32-bit integer parses back from its decimal text |
| GoText.ContainsAt | papermc-launcher/launcher.go:337 | `strings.Contains(s, sub)` holds exactly when sub starts at some position of s |
| GoText.Split | financer-bot/main.go:70 | a split yields at least one piece and no piece holds the separator |
| GoText.SplitJoin | financer-bot/main.go:70 | joining the pieces of a split with the separator restores the text |
| GoText.SplitOnce | financer-bot/main.go:74 | text with exactly one separator splits into the parts before and after it |
| GoText.Fields | financer-bot/main.go:80 | every field is a non-empty run of non-space characters; there are no fields exactly when the line is blank |
| GoText.FieldsOfTwoWords | financer-bot/main.go:80 | two words separated by a blank are the two fields of the line |
| GoText.FieldsFirstRun | financer-bot/main.go:80 | a line of leading white space, a word, and a rest that is empty or starts with white space has that word as its first field, then the fields of the rest: fields are the maximal non-space runs, in order |
| GoText.FieldsOfJoin | financer-bot/main.go:80 | any sequence of words joined by single blanks splits back into exactly those words |
| LauncherConfig.ParseWeekday | papermc-launcher/config.go:103-128 | exactly the seven capitalised English names are accepted, each mapped to its number Sunday=0..Saturday=6; anything else is the error "invalid weekday" |
| LauncherConfig.WeekdayNameParses | papermc-launcher/config.go:99-128 | every weekday is recovered from its name |
| LauncherConfig.DayTimeText | papermc-launcher/config.go:43-45 | for hours and minutes in 0..99 the text is five characters: two digits for the hours, `:`, two digits for the minutes |
| LauncherConfig.Pad2Digits | papermc-launcher/config.go:44 | `%02d` writes 0..99 as exactly two digits that read back as the number |
| LauncherConfig.ScanPad2InRange | papermc-launcher/config.go:55 | scanning `%02d` over what `%02d` printed for -9..99 reads the number and stops right after it |
| LauncherConfig.ScanPad2OutOfRange | papermc-launcher/config.go:55 | outside -9..99 the two-character scan reads a different number and leaves a digit unread |
| LauncherConfig.DayTimeRoundTrip | papermc-launcher/config.go:43-57 | unmarshalling the marshalled DayTime gives it back if and only if hours and minutes both lie in -9..99 (so for every 00:00..99:99) |
| LauncherConfig.UnmarshalDayTime | papermc-launcher/config.go:58-59 | a JSON value that is not a string fails with "Daytime should be in HH:MM format" |
| LauncherConfig.DayTimeDuration | papermc-launcher/config.go:63-65 | the duration is hours*60 + minutes minutes |
| LauncherConfig.MarshalPlayerType | papermc-launcher/config.go:143-154 | Java encodes as "Java" and Bedrock as "Bedrock"; any other value is the error "Invalid player type: <n>" |
| LauncherConfig.UnmarshalPlayerType | papermc-launcher/config.go:156-176 | only the strings "Java" and "Bedrock" decode; another string gives "invalid player type", a non-string "Player type should be a string" |
| LauncherConfig.PlayerTypeRoundTrip | papermc-launcher/config.go:143-176 | decoding an encoded kind gives the kind back and encoding a decoded value gives the value back |
| Scheduler.DayPass | papermc-launcher/launcher.go:375-402 | one scan iteration never moves the chosen instant later, and any instant it picks lies strictly after now |
| Scheduler.ScanToday | papermc-launcher/launcher.go:375-402 | the loop body, with its inner loop over the warn lead times, computes exactly the iteration DayPass describes |
| Scheduler.NextEvent | papermc-launcher/launcher.go:368-403 | the eight iterations over the same day yield the resolved decision; its instant lies in (now, now + 7 days] and no opening, closing or backup instant of today lies strictly between now and it |
| Scheduler.DayPassSettles | papermc-launcher/launcher.go:375-402 | after one iteration no opening, closing or backup instant of today lies strictly between now and the chosen instant |
| Scheduler.DayPassOnSettled | papermc-launcher/launcher.go:384-389 | once settled, an iteration keeps the instant and only turns the command into Warn when a warn instant lies before it |
| Scheduler.ResolveFromFirstPass | papermc-launcher/launcher.go:374-402 | the second iteration keeps the first one's instant and replaces its command by Warn exactly when a warn instant precedes it |
| Scheduler.DayPassStable | papermc-launcher/launcher.go:374-402 | a third iteration changes nothing after two |
| Scheduler.PassesSettle | papermc-launcher/launcher.go:374-402 | any number of iterations from two on gives the resolved decision, so eight equal two |
| Scheduler.ResolveBounds | papermc-launcher/launcher.go:369-403 | the resolved instant is strictly after now and at most a week ahead |
| Scheduler.ResolveIsEarliest | papermc-launcher/launcher.go:373-401 | the resolved instant is the week-ahead default or one of today's opening, closing or Monday backup instants, and none of those lies strictly between now and it |
| Scheduler.WarnKeepsInstant | papermc-launcher/launcher.go:384-389 | warn lead times never change the resolved instant, only the command |
| Scheduler.NoWindowOnlyBackup | papermc-launcher/launcher.go:376-401 | a day without a window yields a Backup only: today 01:00 on Monday, otherwise the week-ahead default |
| Scheduler.BackupOnlyMonday | papermc-launcher/launcher.go:395-401 | on any day other than Monday a resolved Backup is the week-ahead default |
| Scheduler.WarnHidesClose | papermc-launcher/launcher.go:384-393 | while a warn instant lies between now and closing, CloseAccess is never resolved |
| Scheduler.ExampleOpensAtEight | papermc-launcher/launcher.go:368-403 | Monday 07:00 with the window 08:00–22:00: OpenAccess at 08:00 |
| Scheduler.ExampleWarnReplacesClose | papermc-launcher/launcher.go:384-393 | Monday 21:00 with a 30-minute warning: the first iteration gives CloseAccess at 22:00, the resolved decision is Warn at 22:00 |
| IntendedScheduler.ScanWarns | papermc-launcher/launcher.go:384-389 | the inner loop, with a warn candidate setting the instant too, gives the earliest-so-far choice over the warn candidates |
| IntendedScheduler.ScanDay | papermc-launcher/launcher.go:375-401 | one day's candidates considered in loop order, a warn candidate setting the instant too, give the earliest-so-far choice |
| IntendedScheduler.NextEventIntended | papermc-launcher/launcher.go:368-403 | with midnight advanced each iteration, the decision is the intended one and lies in (now, now + 7 days] |
| IntendedScheduler.IntendedResolveIsEarliest | papermc-launcher/launcher.go:368-403 | the intended decision is the default or a candidate of the coming eight days, and no candidate lies strictly between now and it |
| IntendedScheduler.EarliestIsMinimum | papermc-launcher/launcher.go:378-400 | considering candidates with the strict guard picks the start or a candidate, strictly after now, not after any candidate that is after now |
| IntendedScheduler.IntendedExampleWarnsAtHalfPast | papermc-launcher/launcher.go:384-389 | as intended, Monday 21:00 with a 30-minute warning gives Warn at 21:30 |
| IntendedScheduler.IntendedExampleOpensTomorrow | papermc-launcher/launcher.go:402 | as intended, Monday noon with only a Tuesday window gives OpenAccess on Tuesday 08:00 |
| IntendedScheduler.AsWrittenIgnoresTomorrow | papermc-launcher/launcher.go:402 | as written, Monday noon with only a Tuesday window gives the default Backup a week ahead |
| Correlation.OutputAnalyzer.constructor | papermc-launcher/launcher.go:329 | a fresh analyzer has an empty slot and has seen nothing |
| Correlation.OutputAnalyzer.Request | papermc-launcher/launcher.go:345-357 | a request is taken if and only if the slot is empty and the worker still runs; it then fills the slot; delivered lines stay paired with their queries |
| Correlation.OutputAnalyzer.Line | papermc-launcher/launcher.go:331-351 | a line is delivered if and only if a request is active and the line contains its query; delivery empties the slot; every line is printed while the worker runs |
| Correlation.OutputAnalyzer.Finish | papermc-launcher/launcher.go:333-356 | end of output or cancellation stops the worker; a waiting request is never answered |
| Correlation.TwoExchanges | papermc-launcher/launcher.go:326-357 | while one request is pending a second one waits; once the first line answers it, the second is taken, and each line goes to its own query and is printed |
| Supervisor.BackupSagaWrites | papermc-launcher/launcher.go:419-440 | on archive success the saga writes exactly save-off, save-all, save-on; on failure only save-off, save-all, never save-on |
| Supervisor.BackupSagaAcknowledged | papermc-launcher/launcher.go:422-437 | every write of the saga is immediately preceded by the taken request for its acknowledgement |
| Supervisor.BackupSagaArchivesAfterSaving | papermc-launcher/launcher.go:424-435 | the archive comes after both saves and before save-on |
| Supervisor.WarnSendsIffPlayersOnline | papermc-launcher/launcher.go:548-560 | the warn action writes `list`, then the warning if and only if the listing does not contain "There are 0 of a max of" |
| Supervisor.CloseAccessExample | papermc-launcher/launcher.go:530-539 | closing with players Al and Bo writes the notice, then the removal of Al, then of Bo |
| Supervisor.ParseConsole | papermc-launcher/launcher.go:482-519 | any console line other than update, backup, reboot and stop is forwarded unchanged |
| Supervisor.Server.constructor | papermc-launcher/launcher.go:234-245 | a new server handle has the configured players and has done nothing yet |
| Supervisor.Server.Backup | papermc-launcher/launcher.go:419-440 | the steps taken are exactly the saga for the archive outcome, and the archive error is returned |
| Supervisor.Server.Stop | papermc-launcher/launcher.go:442-443 | stopping writes `stop` |
| Supervisor.Server.CloseAccess | papermc-launcher/launcher.go:530-539 | the notice, then one `fwhitelist remove <p>` per player in configured order |
| Supervisor.Server.OpenAccess | papermc-launcher/launcher.go:540-547 | one `fwhitelist add <p>` per player in configured order |
| Supervisor.Server.WarnPlayers | papermc-launcher/launcher.go:548-560 | the listen request, `list`, and the warning exactly when the listing reports players |
| Supervisor.Server.HandleInner | papermc-launcher/launcher.go:522-561 | each scheduled command runs its own action and nothing else |
| Supervisor.Server.HandleConsole | papermc-launcher/launcher.go:480-520 | update stops, archives, refreshes and relaunches (panics on an archive error); backup runs the saga; reboot stops and relaunches; stop leaves the loop after writing `stop` (line 568); anything else is written verbatim |
| Expenses.BeforeIsStrictTotalOrder | financer-bot/storage.go:90 | `Before` is irreflexive, asymmetric, transitive and total on distinct dates |
| Expenses.Wrap32 | financer-bot/main.go:91 | `uint32(v)` keeps values in range and is congruent to v modulo 2^32 |
| Expenses.DateLineSplit | financer-bot/main.go:74 | a line matching `^\d{1,2}\.\d{1,2}$` splits at its dot into the day and month texts |
| Expenses.SetDate | financer-bot/main.go:77 | a date line keeps the year and sets the clock to midnight |
| Expenses.SetDateReadsDigits | financer-bot/main.go:73-77 | the day and month set are the numbers the digits before and after the dot write, each below 100 |
| Expenses.NameBits | financer-bot/main.go:84-90 | the name parts are fields of the line, none of them a 32-bit integer |
| Expenses.NameBitsAppend | financer-bot/main.go:86-90 | name parts keep the fields' order |
| Expenses.NameBitsAllWords | financer-bot/main.go:86-90 | without an integer field, every field is part of the name |
| Expenses.FieldAmountIsLastInteger | financer-bot/main.go:85-93 | the amount is the uint32 wrap of the last field that reads as a 32-bit integer |
| Expenses.FieldAmountWithoutIntegers | financer-bot/main.go:85-93 | without an integer field the amount is 0 |
| Expenses.LineRecord | financer-bot/main.go:80-100 | a line yields at most one record, with positive amount and the current date; a blank line yields none |
| Expenses.TrailingZeroSuppresses | financer-bot/main.go:85-94 | a line whose last field is `0` yields no record |
| Expenses.LineWithoutAmount | financer-bot/main.go:85-94 | a line without an integer field yields no record |
| Expenses.NegativeAmountWraps | financer-bot/main.go:91-94 | a negative last integer still yields a record, of that amount plus 2^32 |
| Expenses.NameAndAmountLine | financer-bot/main.go:80-100 | a line of one non-numeric word, a blank and a positive 32-bit amount (`tea 5`) is a record of exactly that name and amount, dated with the current date |
| Expenses.ParseLines | financer-bot/main.go:70-101 | no more records than lines, each with a positive amount and no number yet |
| Expenses.Parse | financer-bot/main.go:64-103 | every parsed record has a positive amount |
| Expenses.ParseLinesAppend | financer-bot/main.go:72-101 | parsing two runs of lines is parsing the first, then the second from the date the first left: records come out in line order |
| Expenses.OneRecordPerLine | financer-bot/main.go:72-101 | one more line keeps the earlier records and adds at most one |
| Expenses.BlankLineSkipped | financer-bot/main.go:80-83 | removing a blank line anywhere changes nothing |
| Expenses.UndatedLinesKeepDate | financer-bot/main.go:72-79 | without date lines the date stays and every record carries it |
| Expenses.DateLineDatesFollowingRecords | financer-bot/main.go:73-78 | a date line yields no record and dates every record after it up to the next date line |
| Expenses.ParseMessage | financer-bot/main.go:64-103 | the loop over lines computes exactly the records Parse describes |
| Expenses.ScanFields | financer-bot/main.go:84-93 | the loop over a line's fields yields the name parts NameBits describes and the amount FieldAmount describes |
| Ledger.Consume | financer-bot/storage.go:89-104 | the latest date becomes the later of itself and the record's date; a record in another month than the new latest date leaves the balance unchanged |
| Ledger.NewMonthResets | financer-bot/storage.go:90-93 | a later record in another month resets the balance to 0 before its amount is subtracted |
| Ledger.NewDayAddsAllowance | financer-bot/storage.go:94-103 | a later record of the same month on another day adds DayLimit times the days passed, then subtracts its amount |
| Ledger.EarlierRecordSameMonth | financer-bot/storage.go:90-103 | a record not later than the latest one, in its month, only subtracts its amount |
| Ledger.YearIgnoredExamples | financer-bot/storage.go:92-102 | months are compared without the year: December after December, or a March of the previous year, neither reset nor add |
| Ledger.ConsumeAllKeepsLatest | financer-bot/storage.go:90-100 | after a run of records the latest date is the latest of the start and all record dates |
| Ledger.SameMonthTelescopes | financer-bot/storage.go:89-104 | within one month of one year the balance is the start balance plus DayLimit per day the latest date moved on, minus all amounts |
| Ledger.NumberedIsConsecutive | financer-bot/main.go:134-137 | numbering changes only the numbers, which run MaxRecordID+1, MaxRecordID+2, … |
| Ledger.SuccessiveMessagesDisjoint | financer-bot/main.go:134-137 | two messages in a row never share a record number |
| Ledger.ChatProfile.constructor | financer-bot/storage.go:32-38 | a new profile has every field at its zero value, the latest date being the zero time |
| Ledger.ChatProfile.ConsumeRecord | financer-bot/storage.go:89-104 | balance and latest date move as Consume states; topic, day limit and highest number are untouched |
| Ledger.ChatProfile.Describe | financer-bot/storage.go:40-42 | the reply is "Your current balance: " followed by text that parses back to the balance |
| Ledger.ChatProfile.AssignIds | financer-bot/main.go:134-137 | the records get consecutive numbers after the highest one, which moves past them; balance and latest date are untouched |
| Ledger.ChatProfile.ConsumeRecords | financer-bot/main.go:139-140 | consuming the records in order moves balance and latest date as the fold of Consume states |
| Ledger.ChatProfile.HandleMessage | financer-bot/main.go:119-158 | another thread is rejected with "Wrong topic ID" and an empty parse with "No records found", both leaving the profile unchanged; otherwise records get consecutive numbers, the highest number grows by their count, and balance and latest date are the fold of Consume over them |

## Left out

- Processes, pipes, goroutines, channels, `WaitGroup` and contexts are not modelled. The analyzer takes its events one at a time in a given order; a request that is not taken stands for a sender that stays blocked.
- The choice between an output line and a request when both are ready is not modelled.
- Sleeps, the scheduler's timer and the dispatch of the resolved command to the event loop are not modelled. Only the order of the steps is kept.
- Time zones, `time.LoadLocation` and daylight saving are not modelled. The current instant, midnight and its weekday are inputs.
- The weekday of midnight plus k days is taken as the weekday plus k, modulo 7. This matters only for the corrected resolver.
- `Supervisor.Server.Backup`: waiting for each acknowledgement is assumed to end. A process that never prints it would block the saga forever.
- `Supervisor.Server.WarnPlayers`: receives the listing line as a parameter. The wait for it is assumed to end.
- `Supervisor.Server.HandleConsole`: `Stop` and `Start` are assumed to succeed. The panics on their errors are not modelled.
- The process lifecycle is not modelled: `Start`, `IsStarted`, `Cmd.Wait`, and the end-of-loop `Stop` beyond its `stop` write.
- `LoadPaper`, `BackupFolder`, `LoadFileIfDoesNotExist`, `downloads.go` and `geyser-api.go` are not modelled. They are HTTP, SHA-256, file, symlink and tar work. The archive is an oracle whose error is a parameter; refresh and launch are trace steps.
- The JSON text layer is not modelled. Unmarshal functions receive an already decoded JSON value, and the syntax errors of `json.Unmarshal` are left out.
- `LauncherConfig.UnmarshalDayTime`: when the scan fails after the hours, Go has already stored them in the receiver. The model returns only the error.
- `Duration` and `Location` JSON decoding, and marshalling through the library `String()` methods, are not modelled. They rely on float truncation and on library code outside this model.
- `LoadConfig`, `LoadVersionsInfo` and `DumpVersionsInfo` are not modelled. They are file and JSON I/O.
- The `Player` struct and the `Config` of `config.go` (config.go:178-190) are not modelled. The launcher uses its own `Config`, whose `Players` is a list of nicknames (launcher.go:216).
- `Weekday.UnmarshalText` appears twice, in `launcher.go` and in `config.go`. It is modelled once.
- `time.Date` normalisation is not modelled. `ParseMessage` keeps the written day and month (0..99), and `Before` compares these raw fields.
- The year of a date line is the current date's year. The clock source `time.Now` is a parameter.
- `strings.Fields` splits on ASCII white space only. The Unicode spaces beyond ASCII are left out.
- Integers are unbounded. The int64 overflow of `CurrentBalance`, `DayLimit * daysPassed` and `MaxRecordID` is not modelled, and neither is `time.Duration` overflow.
- The Telegram wiring is not modelled: `main`, the private-chat and no-message early returns, replies and their send errors.
- The badger transactions are not modelled: `GetChat`, `SetChat`, the record keys and gob encoding.
- The "Internal server error" reply to a failed transaction is not modelled.
- The `/start` and `/setLimit` handlers are not modelled, including the float parse of the limit.

## Findings

| source | as written | input that shows it | evidently intended | confidence | as-written member | corrected member |
|---|---|---|---|---|---|---|
| papermc-launcher/launcher.go:402 | the result of `midnight.Add(time.Hour * 24)` is discarded, so all eight iterations scan today only | Monday 12:00, a window on Tuesday only (08:00–22:00): the decision is Backup one week ahead | the iterations walk today and the next seven days: OpenAccess on Tuesday 08:00 | high, not executed | IntendedScheduler.AsWrittenIgnoresTomorrow | IntendedScheduler.IntendedExampleOpensTomorrow |
| papermc-launcher/launcher.go:384-389 | a winning warn candidate sets the command but not `nextTime`; rescanning the same day then turns the closing into a warning at the closing instant | Monday 21:00, window 08:00–22:00, warning 30 minutes ahead: the decision is Warn at 22:00 and CloseAccess is never dispatched | Warn at 21:30, then CloseAccess at 22:00 | high, not executed | Scheduler.ExampleWarnReplacesClose | IntendedScheduler.IntendedExampleWarnsAtHalfPast |

The corrected resolver is `IntendedScheduler.NextEventIntended`. `IntendedScheduler.IntendedResolveIsEarliest` proves that it returns the earliest candidate of the coming eight days.
