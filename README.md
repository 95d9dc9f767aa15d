# Alarm bot scheduling core, modelled in Dafny

A Telegram bot lets each chat register time-of-day alarms: daily (`/set`),
on the working days (`/kerja`) or once (`/sekali`). It keeps them in a JSON
file, `alarms.json`, and arms one job per alarm in the bot library's job
queue. `/list` shows a chat's alarms, `/stop HH:MM` cancels one and `/test`
fires a test alarm. A fired alarm offers a five-minute snooze button.
On start-up every stored alarm is re-armed.

This project models the scheduling core behind those handlers, all of it in
`bot.py`:

- `alarm_store.dfy` (`AlarmStore`): the store as a list of records keyed by
  chat id and the raw time string. Save is an upsert: it drops the old
  record of that key and appends the new one. Remove is a filter. A missing
  or unparsable file reads as the empty list.
- `schedule.dfy` (`Schedule`): the one-shot due time and the day filter of
  recurring alarms. Instants are microseconds since the Unix epoch.
  Asia/Jakarta is a fixed UTC+7, so a day is 86 400 s.
- `job_registry.dfy` (`JobRegistry`): jobs, their names `"<chat_id>_<time>"`,
  and the name queries and removals on a list of jobs.
- `decimal.dfy` (`Decimal`) and `time_text.dfy` (`TimeText`): `str(int)`,
  `int(text)`, `split(':')` and `' '.join`, which the job names and the
  `HH:MM` parse rest on.
- `listing.dfy` (`Listing`): `/list`'s filter, stable sort by time string
  and labels.
- `bot.dfy` (`Bot`): the class `AlarmBot`. It holds the store file and the
  job list. Its methods are the handlers, each run as one atomic step.

Behaviour of the code that a reader might not expect, all modelled as
written:

- `/stop` acts only when a live job of that name exists. With no live job
  it replies "not found" and leaves the store alone, even when the store
  holds a record for that key.
- `/set` writes the store and removes the old jobs before the hour and
  minute reach `datetime`. So `/set 25:00` stores a record that has no
  job, and replies with the format hint. `/set 2147483648:00` does the same
  but sends no reply: CPython's `datetime` raises OverflowError for an hour
  or minute outside the C `int` range, and the handler does not catch it.
- `/list` reads `a['message']` directly. A record without a message makes
  the handler raise, and no reply is sent. Restore reads the same field with
  the default `"Alarm"`.
- `/list` sorts by the time string, not by clock time.
- Restore does not clear existing jobs first. It keeps job names unique
  when it starts from an empty queue and the store has no two records with
  the same key (`Bot.RestoredNamesUnique`).
- The code does not compute a recurring alarm's next qualifying day. It
  hands the hour, the minute and the day numbers 0-4 or 0-6 to the library
  (`run_daily`), and the library decides which weekdays those numbers mean.

## Model

| member | source | states |
|---|---|---|
| `Decimal.IntToDecimal` | bot.py:126 | `str(chat_id)` is non-empty, only digits after an optional leading `-`, and the `-` appears exactly for negative ids |
| `Decimal.ParseInt` | bot.py:125 | a text is accepted iff it is one or more digits, or `+`/`-` followed by one or more digits; the value is the digits' value, negated after `-` |
| `Decimal.ParseIntOfDecimal` | bot.py:125-126 | `int(str(i)) == i` for every integer |
| `Decimal.DecimalInjective` | bot.py:126 | two integers with the same decimal text are equal |
| `TimeText.Join` | bot.py:123 | `' '.join`: starts with the first piece and is as long as all pieces plus one separator between each two |
| `TimeText.Split` | bot.py:125 | `split(':')` gives at least one piece and no piece contains the separator |
| `TimeText.JoinSplit` | bot.py:125 | joining the pieces of a split with the separator gives the text back |
| `TimeText.SplitJoin` | bot.py:123 | splitting a join of separator-free pieces gives the pieces back |
| `TimeText.ParseTime` | bot.py:125 | `map(int, t.split(':'))` unpacked into two names succeeds only on an integer text, one `:` and another integer text, and gives those two integers |
| `TimeText.ParseTimeComplete` | bot.py:125 | any integer text, `:` and integer text parses to that hour and minute (converse of the above) |
| `Schedule.OnceTarget` | bot.py:138-141 | defined iff 0 <= h < 24 and 0 <= m < 60; the target reads h:m:00.000000 on the Jakarta clock, lies in (now, now + 1 day], and falls on now's local date, or the next one when h:m is not after now's time of day |
| `Schedule.OnceTargetFields` | bot.py:139 | the target's local hour is h, minute m, second 0 and microsecond 0 |
| `Schedule.OnceTargetEarliest` | bot.py:138-141 | no instant after now whose local time is h:m:00 comes before the target |
| `Schedule.OnceScenarios` | bot.py:138-141 | 15:00 set at 14:00 WIB fires the same day at 15:00; set at 16:00 it fires the next day at 15:00 |
| `Schedule.DaysFilter` | bot.py:157-160 | all day numbers are in 0..6 and 0..4 are always included; 5 and 6 are excluded exactly for "workdays" |
| `AlarmStore.LoadAlarms` | bot.py:28-33 | a missing or unparsable file reads as the empty list, a parsed one as its records |
| `AlarmStore.WithoutKey` | bot.py:49-53 | the result holds exactly the records of other keys and is no longer than the input |
| `AlarmStore.WithoutKeyConcat` | bot.py:51 | the removal filter distributes over concatenation, so kept records keep their relative order |
| `AlarmStore.WithoutAbsentKey` | bot.py:49-53 | removing a key no record has leaves the list unchanged |
| `AlarmStore.WithoutKeyIdempotent` | bot.py:49-53 | removing the same key twice is the same as once |
| `AlarmStore.WithoutKeyKeepsUnique` | bot.py:49-53 | removal keeps the keys of a key-unique list unique |
| `AlarmStore.SaveAlarm` | bot.py:35-47 | the new record is last, no other record has its key, and the others are exactly the old records of other keys |
| `AlarmStore.SaveAlarmKeepsUnique` | bot.py:35-47 | saving into a key-unique list keeps keys unique |
| `AlarmStore.SaveAlarmKeepsOthers` | bot.py:35-47 | removing the saved key after a save gives the old list without that key; any other key's records are kept in order before the new record |
| `AlarmStore.SaveAlarmIdempotent` | bot.py:35-47 | saving the same alarm twice leaves the same list as saving it once |
| `JobRegistry.JobName` | bot.py:126 | the name is the chat id's decimal text, `_`, then the time string; the chat id part holds no `_`, so the first `_` separates the two |
| `JobRegistry.JobNameInjective` | bot.py:126 | equal job names come from equal chat ids and equal time strings |
| `JobRegistry.Named` | bot.py:132 | `get_jobs_by_name` returns exactly the registry's jobs with that name |
| `JobRegistry.WithoutName` | bot.py:133 | after removal the registry holds exactly the jobs of other names |
| `JobRegistry.NamedCounts` | bot.py:132 | every job of the name occurs in the result as often as in the queue, and no other job occurs |
| `JobRegistry.WithoutNameConcat` | bot.py:133 | removal by name distributes over concatenation, so the kept jobs keep their order |
| `JobRegistry.WithoutNameCounts` | bot.py:133 | every job of another name, unnamed ones included, is kept as often as it occurs; none of the name is kept |
| `JobRegistry.RearmLeavesOne` | bot.py:131-168 | removing a name and then arming one job of it leaves exactly that job under the name, and keeps names unique |
| `JobRegistry.RemoveNameLeavesNone` | bot.py:207-210 | removing a name leaves no job of that name and keeps names unique |
| `JobRegistry.AddUnnamed` | bot.py:232-235 | adding an unnamed job changes no name's jobs |
| `JobRegistry.RemoveAt` | bot.py:89 | the firing job's self-removal takes exactly that one job out |
| `JobRegistry.RetireLeavesNone` | bot.py:85-90 | with unique names, a named job that retires itself leaves no job of its name |
| `Listing.LexLeqTotal` | bot.py:188 | any two time strings are ordered one way or the other |
| `Listing.LexLeqTransitive` | bot.py:188 | the time-string order is transitive |
| `Listing.LexLeqAntisymmetric` | bot.py:188 | time strings ordered both ways are equal |
| `Listing.StringOrderIsNotClockOrder` | bot.py:188 | "10:00" sorts before "7:00" |
| `Listing.Mine` | bot.py:187 | keeps exactly the caller's records |
| `Listing.MineCounts` | bot.py:187 | each of the chat's records is kept as often as it is stored, and no other record |
| `Listing.MineConcat` | bot.py:187 | the filter distributes over concatenation, so the kept records keep their stored order |
| `Listing.SortByTime` | bot.py:188 | the output is a permutation of the input with the same elements, sorted by time string |
| `Listing.SortStable` | bot.py:188 | records with the same time string keep their stored order |
| `Listing.Label` | bot.py:195-198 | "Sen-Jum" exactly for type workdays, "Sekali" exactly for once, "Tiap Hari" exactly otherwise, a missing type included |
| `Listing.ListAlarms` | bot.py:185-201 | "no alarms" iff the chat has no record; failure iff one of its records lacks a message; otherwise the lines are those of the caller's records after the stable sort by time string (`Mine`, `SortByTime`): one line per stored record, duplicates included, in time-string order, with equal times in stored order |
| `Bot.Command` | bot.py:177 | the format hint names `/set`, `/kerja` or `/sekali` exactly for daily, workdays or once |
| `Bot.CustomMessage` | bot.py:123 | "Alarm!" without words after the time; otherwise the words joined by spaces, which split back into those words |
| `Bot.KindText` | bot.py:149-169 | "Sekali Jalan" exactly for once, "Senin-Jumat" exactly for workdays, "Setiap Hari" exactly otherwise |
| `Bot.ArmedJob` | bot.py:136-168 | a job exists iff the hour and minute are in range; it carries the name and data given; a once job fires at an instant in (now, now + 1 day] reading h:m on the local clock; any other type runs daily at h:m on DaysFilter(type) |
| `Bot.RestoredJob` | bot.py:241-275 | a record is re-armed iff its time parses into a valid hour and minute; the job is named after its chat id and raw time; a missing type reads as "daily" and a missing message as "Alarm"; the job is the one `ArmedJob` arms for that name, data, hour and minute, so it fires when create's would |
| `Bot.RestoredUntypedRunsDaily` | bot.py:243-273 | a restored record without a type runs daily at its hour and minute, on all of the day numbers 0..6 |
| `Bot.RestoredJobs` | bot.py:240-275 | at most one job per record, and each comes from one stored record |
| `Bot.RestoreMatchesCreate` | bot.py:249-273 | restoring a saved record re-arms exactly the job the set command armed, for the same instant |
| `Bot.RestoreArmsEveryRestorable` | bot.py:240-275 | a record that raises is skipped and the loop goes on: every restorable record's job is armed, wherever it stands in the store |
| `Bot.RestoreCount` | bot.py:240-275 | restore arms exactly as many jobs as the store has restorable records, for any store; a store of N restorable records yields N jobs |
| `Bot.RestoredInFuture` | bot.py:249-253 | every restored one-shot job fires after the restore instant and within one day of it |
| `Bot.RestoredNamesUnique` | bot.py:237-275 | restoring a key-unique store arms at most one job per name |
| `Bot.SnoozeJob` | bot.py:103-112 | the snooze job is unnamed, for the pressing chat, carries "SNOOZE: Bangun woy!", is of type "snooze", and fires after 300 s |
| `Bot.TestJob` | bot.py:232-235 | the test job is unnamed, for the calling chat, carries "TESTING!", is of type "test", and fires after 5 s |
| `Bot.AlarmBot.SaveAlarmToDb` | bot.py:35-47 | the file afterwards holds SaveAlarm of what was readable before, and the jobs are untouched |
| `Bot.AlarmBot.RemoveAlarmFromDb` | bot.py:49-53 | the file afterwards holds the readable records without the key, and the jobs are untouched |
| `Bot.AlarmBot.GetJobsByName` | bot.py:132 | the scan returns exactly Named(jobs, name) |
| `Bot.AlarmBot.RemoveJobsNamed` | bot.py:132-133 | the removal loop leaves exactly WithoutName of the old jobs |
| `Bot.AlarmBot.Run` | bot.py:143-148 | arming appends the job to the queue |
| `Bot.AlarmBot.CreateAlarm` | bot.py:115-178 | no arguments or an unparsable time: nothing changes and the format hint is sent. Otherwise the store is upserted, all jobs of the name are removed and the armed job (if the time is in range) is appended. The reply is the confirmation; for an out-of-range time it is the hint, or no reply at all when the hour or minute lies outside the C `int` range. At most one job of the name is left, and names stay unique |
| `Bot.AlarmBot.StopAlarm` | bot.py:203-216 | no argument: usage, no change. A live job of the name: all of them and the store record go. No live job: "not found" and neither side changes. Afterwards no job has the name |
| `Bot.AlarmBot.SendAlarmMessage` | bot.py:57-90 | the alert carries the job's chat and message whatever the send outcome. A once job removes its store record and itself, and, when names were unique, no job of its name is left; every other type changes nothing |
| `Bot.AlarmBot.ButtonHandler` | bot.py:92-112 | "snooze" appends the snooze job when the acknowledgement and the edit were sent; any other button, or a failed send, changes nothing; no name's jobs change |
| `Bot.AlarmBot.TestAlarm` | bot.py:230-235 | appends the test job when the announcement was sent, and nothing otherwise; no name's jobs change |
| `Bot.AlarmBot.RestoreAlarms` | bot.py:237-275 | the queue gains RestoredJobs of the stored records, in store order; from an empty queue over a key-unique store, names are unique |

## Left out

- Telegram transport: sending and editing messages, Markdown, emoji, inline keyboards, and the handler wiring in `__main__`. These are foreign I/O. Replies are returned as values. Send outcomes that decide state are flags: `delivered` of `Bot.AlarmBot.SendAlarmMessage` and `sent` of `Bot.AlarmBot.ButtonHandler` and `Bot.AlarmBot.TestAlarm`.
- Bot.AlarmBot.CreateAlarm, Bot.AlarmBot.StopAlarm: the reply is sent after the state has changed, so a failed reply changes no state and is not modelled. In `/stop` the bare `except` would then try to send the usage text.
- Bot.AlarmBot.SendAlarmMessage: the default message `'Waktunya aktivitas!'` is not modelled, because every job the bot arms carries a message.
- The text replies of `/start` and `/test`, and the confirmation text of the "stop_snooze" button. These are transport only and change no state.
- The job queue library's internals. The model does not say when a daily job next fires, which weekday each day number means, or that a run-once job leaves the queue by itself after it runs. A recurring job appears only as its `DailyAt(hour, minute, days)` trigger.
- Bot.AlarmBot.SendAlarmMessage: `schedule_removal` is modelled as immediate removal of the firing job. The library's own timing of that removal is not modelled.
- Unnamed jobs are `None` names. The library's default name for them is not part of this model.
- JSON encoding and file writing. A write is a whole-list overwrite that always succeeds. A file that parses as JSON but is not a list of records is not modelled. A stored record always has a chat id and a time string; only its message and type may be missing.
- `async`/`await`, and concurrency between handlers and firing jobs. Each handler is one atomic transition.
- Decimal.ParseInt: accepts only an optional sign and ASCII digits. Python's `int` also accepts surrounding whitespace, `_` between digits and non-ASCII digits.
- Bot.AlarmBot.RestoreAlarms: takes one clock reading for the whole loop. The source reads the clock once per one-shot record.
- Bot.AlarmBot.CreateAlarm: the clock reading `now` is a parameter, not a call to the clock.
- Listing.ListAlarms: the reply lines carry time, label and message, not the formatted Markdown text.
- Logging and `print`.
