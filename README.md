# noticer — a Dafny model of the reminder bot

noticer is a Telegram bot for reminders. A user sends `/remind <duration> <text>`,
for example `/remind 1h30m call home`. The bot stores a `Reminder` with its owner,
its text, a due date, an id and an active flag. A scheduler loop repeatedly checks
every active reminder. When a reminder is due, the loop marks it inactive and sends
the owner a notification. `/listOfReminders` lists the ids of the requester's active
reminders. `/help` and `/start` describe the commands. Each command is answered by a
handler method whose name, split on `_`, gives the commands it answers.

This project models that core in Dafny:

- `reminder.dfy` (module `Reminders`). The reminder value: constructor defaults, the id and `check`.
- `duration.dfy` (module `Durations`). The duration argument of `/remind`:
  - `re.findall(r"(\d+)(\w)")` as a scanner that backtracks;
  - the unit table;
  - the loop that adds up the amounts, with its two rejections.
- `scheduler.dfy` (module `Scheduler`). One pass of the scheduler loop as written: the snapshot, the check and the lookup by id. It sits beside a declarative description of a pass, and the two are proved to agree when ids are distinct (`Scheduler.CycleSettles`); `Scheduler.CollidingIdsResend` shows how they differ otherwise.
- `listing.dfy` (module `Listing`). The `/listOfReminders` reply.
- `help.dfy` (module `Help`). Command tokens of handler names and the `/help` reply.
- `bot.dfy` (module `Bots`). The bot object, a class whose fields change in place:
  - its fields are the reminder list, the loop flag and counters, and the notifications sent;
  - its methods are `Stop`, one scheduler `Cycle`, `HandleRemind` (with `Schedule`, its part after parsing) and `HandleListOfReminders`.
- `text.dfy` (module `Text`) holds the Python string operations the core relies on: `split`, `join`, `strip`, `splitlines`, `int` and `str`. `wrappers.dfy` holds `Option` and `Result`.

Modelling choices:

- **Time.** Times are whole seconds since 0001-01-01 00:00:00 UTC, the first instant a Python `datetime` can hold. `Reminders.MaxDate` is the last whole second it can hold, 9999-12-31 23:59:59. Every clock reading is a parameter `now`.
- **Ids.** Python's `hash` differs from process to process, so the id hash is a parameter `HashFn` of the date and the text. No property of the model depends on the ids being distinct unless it says so. `Scheduler.CollidingIdsResend` shows what happens when two ids are equal.
- **Replies.** A reply is a datatype naming which message the bot sends, not the rendered text.

Two behaviours of the code are worth stating outright:

- The expiry comparison is strict: a reminder is due once its date lies strictly before now. See `Reminders.CheckAtDate`.
- An empty reminder text is kept as it is. Only an absent text falls back to the default text. See `Reminders.EmptyTextKept`.

## Model

| member | source | states |
|---|---|---|
| Reminders.NewReminder | src/reminder.py:33-42 | a new reminder is active and owned by the caller; an absent text becomes the default text, an absent date becomes the clock reading; its id is the hash of its date and text |
| Reminders.Check | src/reminder.py:44-47 | the check reports the reminder's own id, and reports it expired exactly when now lies strictly after its date |
| Reminders.CheckAtDate | src/reminder.py:44-47 | the check compares strictly: a reminder is not expired at its own date, and is expired one second later; the check always reports the reminder's id |
| Reminders.ExpiryMonotone | src/reminder.py:44-47 | once a reminder has expired it stays expired at every later time |
| Reminders.SameFactsSameId | src/reminder.py:40 | the id depends only on date and text: two reminders with the same date and text get the same id, whoever set them |
| Reminders.EmptyTextKept | src/reminder.py:34-36 | a supplied empty text is kept; only an absent text is replaced by the default |
| Durations.FindAll | src/bot.py:244 | every match the pattern yields is a non-empty run of digits followed by one word character |
| Durations.UnitSeconds | src/bot.py:232-238 | the unit table maps s, m, h, d, M to 1, 60, 3600, 86400, 2628000 seconds; every known unit is a letter with a positive value |
| Durations.FirstUnknown | src/bot.py:246-255 | finds the first match whose unit is not in the table: every unit before it is known, and none is unknown when it reports nothing |
| Durations.Total | src/bot.py:246-252 | the running total over known units is zero exactly when every amount is zero |
| Durations.DurationOf | src/bot.py:240-261 | an accepted duration is positive; a rejected unit is a word character outside the unit table |
| Durations.ZeroDurationMeans | src/bot.py:246-261 | a zero-duration rejection means every match has a known unit and a zero amount |
| Durations.ParseDuration | src/bot.py:240-261 | the parse of the duration argument returns exactly DurationOf: the first unknown unit, a zero total, or the positive sum |
| Durations.Accumulate | src/bot.py:246-261 | the accumulation loop returns the first unknown unit as an error, a zero total as an error, and otherwise the sum of number times unit value over all matches (Assess) |
| Durations.Assess | src/bot.py:246-261 | an accepted total is positive; a rejected unit is outside the unit table and is the unit of one of the matches |
| Durations.FirstUnknownIs | src/bot.py:246-255 | when the unit at k is unknown and all earlier ones are known, the loop stops at k |
| Durations.LeadingPair | src/bot.py:244 | a digit run followed by a letter is the next match, and scanning resumes right after the letter |
| Durations.FindAllRendered | src/bot.py:244 | the scanner reads a text of amount-letter pairs back as exactly those pairs, in order |
| Durations.TotalRendered | src/bot.py:246-252 | the total over a scanned text of known pairs is the sum of amount times unit value |
| Durations.DurationOfRendered | src/bot.py:240-261 | a text of known amount-unit pairs is accepted exactly when its sum is positive, and its duration is then that sum; a zero sum is rejected |
| Durations.RenderedUnknownUnit | src/bot.py:251-255 | the first pair whose unit is outside the table rejects the whole argument with that unit, whatever valid pairs come before it |
| Durations.SkipNonDigit | src/bot.py:244 | a character that is not a digit never starts a match and is skipped |
| Durations.SeparatorsSkipped | src/bot.py:244 | one non-digit separator character between each two pairs ("1h-30m") changes neither the matches nor the resulting duration |
| Durations.SeparatedMatches | src/bot.py:244 | one non-digit separator between each two pairs leaves the matches unchanged |
| Durations.SameMatchesSameDuration | src/bot.py:244-261 | two arguments with the same matches have the same duration |
| Durations.HoursMinutesParts | src/bot.py:246-252 | one hour and thirty minutes add up to 5400 seconds |
| Durations.ExampleSeparated | src/bot.py:244-252 | "1h-30m" is 5400 seconds, the same as "1h30m" |
| Durations.ExampleHoursMinutes | src/bot.py:225-252 | "1h30m" is 5400 seconds |
| Durations.ExampleUnknownAfterValid | src/bot.py:251-255 | "1h5x" is rejected naming 'x', although "1h" before it is valid |
| Durations.ExampleDays | src/bot.py:236 | "2d" is 172800 seconds |
| Durations.ExampleUnknownUnit | src/bot.py:251-255 | "10x" is rejected naming 'x' |
| Durations.ExampleBacktrackedDigit | src/bot.py:244 | in "123" the digit run gives back its last digit, which becomes the unit '3', so the argument is rejected naming '3' |
| Durations.ExampleUnderscoreUnit | src/bot.py:244 | '_' is a word character, so "5_" is rejected naming '_' |
| Durations.ExampleZeroAmount | src/bot.py:257-261 | "0s" is rejected as a zero duration |
| Durations.NoPairsRejected | src/bot.py:244-261 | any argument in which the pattern finds no match is rejected as a zero duration |
| Durations.NoDigitsRejected | src/bot.py:244-261 | an argument without a digit yields no match, so it is rejected as a zero duration |
| Durations.ExampleLoneDigit | src/bot.py:244-261 | "5" has a digit but no unit after it, so it yields no match and is rejected as a zero duration |
| Scheduler.Active | src/bot.py:89-93 | the snapshot holds only active reminders of the list, and is no longer than the list |
| Scheduler.IndexOfId | src/bot.py:100 | the lookup finds the first reminder carrying the id, or reports that none does |
| Scheduler.Step | src/bot.py:98-105 | handling one snapshot entry keeps the list length and sends at most one notice, after those already sent, and only when the entry's check reports it expired |
| Scheduler.Process | src/bot.py:96-105 | handling a snapshot keeps the list length and sends at most one notice per snapshot entry |
| Scheduler.CycleAsWritten | src/bot.py:88-105 | one pass as written keeps the list length and sends at most one notice per active reminder |
| Scheduler.Settle | src/bot.py:96-105 | the settling pass keeps the list length and leaves no reminder that would still fire at that time |
| Scheduler.Notices | src/bot.py:99-105 | the settling pass sends at most one notice per active reminder |
| Scheduler.SettleEffect | src/bot.py:96-105 | a settling pass keeps the length; a reminder ends inactive exactly when it was inactive or its date lies before now; user, text, date and id are unchanged |
| Scheduler.ProcessOnlyClearsFlags | src/bot.py:96-110 | whatever the ids, a pass as written keeps the list length and every reminder's user, text, date and id, and never re-activates a reminder |
| Scheduler.LookupAlwaysFinds | src/bot.py:89-107 | the lookup by id of a snapshot entry always succeeds, so the StopIteration handler is never reached |
| Scheduler.LookupOwnId | src/bot.py:100 | with distinct ids, the lookup of a reminder's own id finds that reminder |
| Scheduler.PartlySettled | src/bot.py:96-105 | the list part way through a pass: the first n entries are settled and the rest are untouched; distinct ids stay distinct |
| Scheduler.StepSettlesEntry | src/bot.py:98-105 | handling one active entry with distinct ids deactivates that entry if it is due and sends its notice, and does nothing otherwise |
| Scheduler.ProcessPrefix | src/bot.py:89-105 | with distinct ids, handling the snapshot of the first n reminders settles exactly those and sends their notices in list order |
| Scheduler.CycleSettles | src/bot.py:88-110 | with distinct ids, one pass as written deactivates exactly the reminders that are active and due, and sends exactly their notices, in list order |
| Scheduler.StepFirstMatch | src/bot.py:99-105 | an expired entry whose id matches the first reminder deactivates that reminder and sends its notice |
| Scheduler.CollidingIdsResend | src/bot.py:89-105 | two due reminders with equal ids: the lookup finds the first both times, so its notice is sent twice and the second stays active |
| Scheduler.CollidingIdsRepeat | src/bot.py:89-105 | in every later pass the still-active second reminder makes the first one's notice go out once more |
| Scheduler.SettleKeepsIds | src/bot.py:101 | a pass keeps ids distinct, so the next pass meets the same condition |
| Scheduler.NoticesEmpty | src/bot.py:99-105 | when no reminder is due, a pass sends nothing |
| Scheduler.SettleIdempotent | src/bot.py:87-105 | a second settling pass at the same time changes nothing and sends nothing; it equals the pass as written when ids are distinct (CycleSettles) |
| Scheduler.AtMostOnce | src/bot.py:87-105 | over any sequence of settling passes at any times, a reminder is notified at most once, and an inactive one never |
| Scheduler.WrittenMatchesSettled | src/bot.py:87-105 | with distinct ids, repeating the pass as written fires a reminder exactly as often as repeating the settling pass does |
| Scheduler.CycleAtMostOnce | src/bot.py:87-105 | with distinct ids, over any sequence of passes as written at any times, a reminder is notified at most once, and an inactive one never |
| Scheduler.CollidingTwinFiresEveryPass | src/bot.py:87-105 | when two reminders share an id and both are due, the second one's check reports it expired in every pass as written, however many there are |
| Scheduler.CycleIdempotent | src/bot.py:87-105 | with distinct ids, a second pass as written at the same time changes nothing and sends nothing |
| Scheduler.SettleAppend | src/bot.py:265 | a reminder appended between settling passes is settled independently of those before it; the settling pass equals the pass as written when ids are distinct (CycleSettles) |
| Listing.UserReminderIds | src/bot.py:284-288 | the listing is never longer than the reminder list |
| Listing.ListReplyFor | src/bot.py:289-294 | the reply lists ids only when there is at least one |
| Listing.ListedExactly | src/bot.py:284-288 | an id is listed exactly when some active reminder of the requesting user carries it |
| Listing.ListingConcat | src/bot.py:284-288 | the listing keeps list order: listing a concatenation concatenates the listings |
| Listing.ListingOnlyOwnActive | src/bot.py:287 | with distinct ids, another user's reminder or an inactive one never appears in a listing |
| Listing.ListingAfterCycle | src/bot.py:284-288 | after a settling pass, a user's listing holds exactly the ids of that user's reminders that were active and not yet due; the settling pass equals the pass as written when ids are distinct (CycleSettles) |
| Help.Tokens | src/bot.py:159 | no command token contains an underscore |
| Help.TokensOfName | src/bot.py:159 | a handler named prefix_t1_..._tn answers exactly the commands t1, ..., tn |
| Help.HelpStartTokens | src/bot.py:181 | handle_help_start answers /help and /start |
| Help.RemindTokens | src/bot.py:217 | handle_remind answers /remind |
| Help.ListTokens | src/bot.py:272 | handle_listOfReminders answers /listOfReminders |
| Help.AllTokens | src/bot.py:201-205 | no valid command token contains an underscore |
| Help.FirstHandlerWith | src/bot.py:207-211 | finds the first handler answering the argument; no earlier handler answers it, and none answers it when it reports nothing |
| Help.ValidIffAnswered | src/bot.py:201-208 | an argument is among the valid commands exactly when some handler answers it |
| Help.DocOrDefault | src/bot.py:209 | the shown documentation is the docstring when it is non-empty, and the placeholder "no description" (non-empty) when the docstring is absent or empty |
| Help.HelpFor | src/bot.py:200-213 | an argument gets documentation exactly when it is a valid command; the documentation names that argument and is never empty; otherwise the reply is "no such command" |
| Help.Summary | src/bot.py:193-196 | a missing or empty docstring gives the placeholder; a summary line neither starts nor ends with whitespace |
| Help.Entries | src/bot.py:191-197 | present entries number one per handler |
| Help.OverviewOf | src/bot.py:189-197 | a present overview has exactly one entry per handler |
| Help.EntriesContent | src/bot.py:191-197 | present entries hold, for each handler in order, the commands it answers and its summary line |
| Help.EntriesStopAt | src/bot.py:191-196 | one handler without a summary line leaves the overview missing, whatever follows it |
| Help.EntriesMissing | src/bot.py:191-196 | the entries are missing exactly when some handler has no summary line |
| Help.OverviewExactly | src/bot.py:189-197 | the overview has, for each handler in order, its commands and its stripped second docstring line or the placeholder; it is missing exactly when some non-empty docstring has no second line |
| Help.CollectEntries | src/bot.py:191-197 | the loop over the handlers builds exactly the entries, stopping at the first handler without a summary line |
| Help.BuildOverview | src/bot.py:189-197 | without arguments the reply has one entry per handler, holding its commands and the stripped second line of its docstring or the placeholder (OverviewOf); no reply when a non-empty docstring has no second line |
| Help.DocFor | src/bot.py:206-211 | for a valid argument, the reply is the documentation of the first handler answering it (HelpFor) |
| Help.HandleHelp | src/bot.py:187-215 | without arguments the reply is the overview; with arguments each one overwrites the reply, so the last argument decides between its documentation and "no such command" |
| Bots.Bot.constructor | src/bot.py:40-43 | a new bot has no reminders, the loop flag set, a two-second wait and zero cycles, and has sent nothing |
| Bots.Bot.Stop | src/bot.py:59-68 | after stop the loop flag is cleared, so no further pass runs |
| Bots.Bot.Cycle | src/bot.py:87-110 | a stopped bot changes nothing; a running bot counts the pass, and its list and sent notifications become those of the pass as written; with distinct ids, exactly the due reminders are deactivated and exactly their notices are appended to the outbox |
| Bots.Bot.HandleRemind | src/bot.py:227-270 | without a duration argument the handler raises IndexError; an unknown unit or a zero total is answered with that error; a date past the last one a datetime holds raises OverflowError; none of these changes the list; otherwise exactly one reminder is appended, dated now plus the duration, with the remaining words joined by spaces as its text |
| Bots.Bot.Schedule | src/bot.py:253-270 | after parsing, a parse error is answered as it is and a date past the last one a datetime holds raises OverflowError, both leaving the list unchanged; otherwise one active reminder of the requester dated now plus the total is appended and its date is the reply |
| Bots.Bot.HandleListOfReminders | src/bot.py:284-294 | the reply is the ids of the requester's active reminders in list order, or "no reminders" when there are none (ListReplyFor) |
| Bots.RemindAppendsOne | src/bot.py:264-265 | a successful /remind leaves the earlier reminders untouched and appends one active reminder of the requester, dated strictly after now, with the joined text and the id of its date and text |
| Text.Split | src/bot.py:159 | split always yields at least one piece, and no piece contains the separator |
| Text.Join | src/bot.py:228 | the join starts with the first piece, followed by the separator when there is a second piece; joining nothing gives the empty string |
| Text.JoinSplit | src/bot.py:159 | joining the pieces of a split with the same separator restores the string |
| Text.SplitJoin | src/bot.py:159 | splitting a join of separator-free pieces gives the pieces back |
| Text.Strip | src/bot.py:227 | the stripped string neither starts nor ends with whitespace |
| Text.Lines | src/bot.py:194 | no line contains a line break, and only the empty string has no lines |
| Text.Decimal | src/bot.py:248 | str(n) is a non-empty digit string without a leading zero |
| Text.DecimalValue | src/bot.py:248 | int() of a digit string is zero exactly when every digit is '0' |
| Text.DecimalRoundTrip | src/bot.py:248 | int(str(n)) == n |

## Left out

- src/app.py and src/git_updater.py are not part of this model. They hold process start-up and self-update, which are not reminder logic.
- The Telegram client is not modelled: the network, message objects, `reply` and `send_message`. A reply is a datatype. A sent notification is a `Notice` appended to the bot's outbox.
- Concurrency is not modelled: the thread pool, asyncio, `sleep` and the timing of `cycle_wait`. `Bot.Cycle` is one iteration of the loop with a fixed `now`. The checks read only date and id, which never change, so computing them in worker threads does not change the outcome.
- Handler discovery by reflection (`collect_methods`, `dir`, `inspect`) is not modelled. The handler table is a parameter: a sequence of names and docstrings in registration order.
- Dates are integer seconds. Time zones, microseconds and `strftime` rendering are not modelled. The default date of `Reminder` is a naive `datetime.now()`. Comparing it with an aware UTC time raises `TypeError` in `check`, and the model does not capture that.
- Reminders.NewReminder: the id is an uninterpreted `HashFn` of the date and the text. It does not model the concatenation `str(date) + text`, so two different date and text pairs whose concatenations are equal are not forced to share an id.
- Durations.FindAll: `\d` and `\w` use ASCII classes. Python's Unicode classes also accept non-ASCII digits and letters, so a unit such as a Cyrillic letter is skipped here where Python reports it.
- Text.Strip: it strips ASCII whitespace only. Python's `strip` also removes non-ASCII whitespace such as `\xa0`.
- Text.Lines: it breaks lines only at `\n`. Python's `splitlines` also breaks at `\r`, `\r\n` and other Unicode line boundaries.
- Bots.Bot.HandleRemind: an escaping exception is a `Raised` result instead of a propagated exception, and it requires the clock reading to lie within the range of a `datetime`. `timedelta`'s own limit of 999999999 days is not modelled separately: such a duration already passes the year 9999 from any such clock reading, so both limits raise the same OverflowError.
- Help.BuildOverview: the overview reply is the list of entries, not the rendered text. The source raises `IndexError` on a non-empty docstring without a second line, and the model returns no reply in that case.
- Bots.Bot.Cycle: deactivation replaces the list element with an inactive copy instead of mutating a shared object. This is equivalent here because the snapshot is only read for its date and id.
- Logging, `print` in the `StopIteration`/`TimeoutError` handler, and exceptions re-raised from `send_message` are not modelled. `Scheduler.LookupAlwaysFinds` shows that the `StopIteration` branch cannot be reached.
- The `/listOfReminders` reply keeps the ids as numbers instead of the space-separated decimal text.
