# Reminders and guild configuration of the One-Piece Discord bot

This project models the reminder subsystem of the bot and the small per-guild
configuration logic around it, and proves properties of the model in Dafny.

- **`parseWhen`** (module `TimeParser`) turns a user's time expression into an
  absolute deadline in epoch milliseconds. It tries three forms in order: an
  integer with a unit synonym (`5s`, `10 min`, `2 hours`, `1d`), a bare integer
  read as seconds, and a general date parser. The input is trimmed and
  lower-cased first. The clock is the parameter `now`. The library date parser
  is the parameter `dateParse`; its `None` stands for `NaN`.
- **The reminder store** (`Reminders.ReminderStore`) holds the pending
  reminders as a list. It supports read-all, write-all, append and
  remove-by-id. Each change reads the whole list and writes it back.
- **The guild configuration store** (`Config.ConfigStore`) maps a guild id to
  a record holding the auto-role, the moderation-log channel and the
  autoresponse rules. A guild without a record reads as the default record.
- **The scheduler** (`Scheduling.Scheduler`) owns the store and the in-memory
  timer index `scheduledTimers`.
  - `Schedule` delivers a due reminder at once and arms a timer for a future one.
  - `Deliver` tries the origin channel, then the direct message, then always
    runs its cleanup: it removes the record from the store and drops the timer.
  - `Fire` is a timer's expiry.
  - `Startup` schedules every stored reminder, in store order.
  - The invariant `Valid` says that stored ids are unique and that every timer
    belongs to a stored reminder filed under its id.
- **The command handlers** (module `Commands`):
  - `/remind` validates, persists and schedules a reminder.
  - The `messageCreate` autoresponder answers with the first matching rule.
  - `/autoresponse add|remove|list` edits a guild's rules.
  - `/config autorole|modlog set|clear` sets or clears a guild's fields.

How the outside world enters the model:
- The messaging client's answers during one delivery are the parameter `env`
  (datatype `Scheduling.Env`):
  - whether the channel was found and can send
  - whether each send went through
  - whether the user was found
  - whether the store write in the cleanup went through

  The calls a delivery makes are returned as a list of `Event`s. Every mix of
  successes and failures is therefore covered.
- Store writes that can throw inside a `try` are boolean parameters:
  - `addOk` for `addReminder` in `/remind`
  - `Env.removeOk` for `removeReminder` in the cleanup
- Whether the member is an administrator is the parameter `isAdmin`.
- Options the user left out are `None`.

Behaviour of the code worth noting:
- `!ts` in `/remind` rejects the deadline `0` as well as a failed parse
  (`Commands.RemindOutcome`).
- A deadline already in the past is accepted: it is stored, delivered at once
  and gets no timer. The same holds at startup: only the records still in the
  future are armed, and the overdue ones are delivered at once
  (`Scheduling.Arm`, `Scheduling.Scheduler.Startup`).
- The date parser receives the untrimmed, original input. Only the two
  patterns see the trimmed, lower-cased text.
- The cleanup's `removeReminder` sits in its own `try {} catch {}`. When that
  write fails, the timer entry is still dropped. The model treats a failed
  write as leaving the stored list as it was (`Scheduling.Cleanup`); a write
  that fails half-way through the file is outside the in-memory store (see
  "Left out").

## Model

| member | source | states |
|---|---|---|
| Seqs.Filter | src/reminders.js:30 | `Array.prototype.filter`: the elements that satisfy the predicate, in their order; never longer than the input |
| Seqs.FilterMembers | src/reminders.js:30 | a filtered list holds exactly the elements of the input that satisfy the predicate |
| Seqs.FilterAppend | src/reminders.js:30 | filtering distributes over concatenation, so the survivors keep their relative order |
| Seqs.FilterKeepsAll | src/reminders.js:30 | filtering a list whose every element satisfies the predicate returns the list unchanged |
| Seqs.FilterIdempotent | src/index.js:230 | filtering twice by the same predicate is filtering once |
| Text.IsSpace | src/index.js:26-28 | the ECMAScript white-space and line-terminator characters: what `trim` strips and what `\s` matches |
| Text.Trim | src/index.js:26 | `String.prototype.trim`, as `trimEnd` after `trimStart` over the ECMAScript white-space and line-terminator characters; characterised by `Text.TrimStripped` |
| Text.TrimStripped | src/index.js:26 | `trim` keeps a contiguous slice of its input that neither starts nor ends with white space, and everything it drops on either side is white space |
| Text.TrimUnpadded | src/index.js:26 | `trim` leaves a string that neither starts nor ends with white space unchanged |
| Text.Lower | src/index.js:26 | `toLowerCase` on ASCII letters: the result has the input's length and each character is the lower-cased input character |
| Text.LowerUnchanged | src/index.js:26 | `toLowerCase` leaves a string without upper-case letters unchanged |
| Text.Decimal | src/index.js:30 | `Number` of a string of decimal digits, as a mathematical integer; `Text.DecimalShowNat` is its round trip |
| Text.DecimalShowNat | src/index.js:30 | reading the decimal digits of a natural number gives that number back; the digits are non-empty and all digits |
| Text.Includes | src/index.js:133 | `String.prototype.includes`: some position of the text holds the needle |
| Text.IncludesInside | src/index.js:133 | a text includes every string that occurs in it as a contiguous piece |
| TimeParser.Units | src/index.js:28 | the unit alternation of the duration regex: the second, minute, hour and day synonyms |
| TimeParser.Multipliers | src/index.js:32-37 | the multiplier table: 1000 ms for the second synonyms, 60000 for minutes, 3600000 for hours, 86400000 for days |
| TimeParser.IsBareNumber | src/index.js:43 | the `^(\d+)$` pattern: a non-empty string of decimal digits |
| TimeParser.MatchDuration | src/index.js:28 | the duration regex: greedy digits, greedy white space, then the whole rest must be a listed unit; `MatchDurationSound` and `MatchDurationComplete` make it an if-and-only-if |
| TimeParser.ParseWhen | src/index.js:24-51 | `parseWhen`: the empty check, trim and lower-case, the duration form, the bare-number form, then the date parser on the original input; characterised by the `Parse*` lemmas below |
| TimeParser.DigitRunMaximal | src/index.js:28 | the `\d+` scan consumes only digits and stops at the first non-digit |
| TimeParser.SpaceRunMaximal | src/index.js:28 | the `\s*` scan consumes only white space and stops at the first other character |
| TimeParser.MatchDurationSound | src/index.js:28 | every match of the duration pattern splits the input into non-empty digits, white space and a listed unit |
| TimeParser.MatchDurationComplete | src/index.js:28 | every string of that shape matches, with exactly those three groups |
| TimeParser.UnitsCovered | src/index.js:28-39 | every unit the pattern accepts has a positive entry in the multiplier table, so the `!mult` branch is dead |
| TimeParser.BareNumberIsNotDuration | src/index.js:28-46 | a bare digit string never matches the duration pattern, so it reaches the seconds branch |
| TimeParser.ParseRejectsEmpty | src/index.js:25 | an absent or empty input parses to `null` |
| TimeParser.ParseDuration | src/index.js:26-40 | any input that trims and lower-cases to `<n><ws>*<unit>` yields `now + n * multiplier[unit]` |
| TimeParser.ParseDigitsUnit | src/index.js:26-40 | `<digits><unit>` yields `now` plus the digits' value times the unit's multiplier |
| TimeParser.ParseNumeralWithUnit | src/index.js:28-40 | for every natural `n` and unit `u`, `"<n><u>"` yields `now + n * multiplier[u]` |
| TimeParser.ParseBareNumber | src/index.js:43-46 | a bare digit string yields `now` plus that many seconds |
| TimeParser.ParseNumeral | src/index.js:43-46 | for every natural `n`, `"<n>"` yields `now + n * 1000` |
| TimeParser.ParseFallsBackToDate | src/index.js:48-50 | an input matching neither pattern yields what the date parser gives for the original input, `null` for `NaN` |
| Reminders.WithoutId | src/reminders.js:30 | `filter(r => r.id !== id)`; never longer than the input; characterised by `WithoutIdMembers` and `WithoutIdOrder` |
| Reminders.ReminderStore.constructor | src/reminders.js:7-16 | a store whose file does not exist yet reads as the empty list |
| Reminders.ReminderStore.ReadAll | src/reminders.js:13-16 | `readAll` returns the stored list and changes nothing |
| Reminders.ReminderStore.WriteAll | src/reminders.js:18-21 | `writeAll` replaces the stored list by the given one |
| Reminders.ReminderStore.AddReminder | src/reminders.js:23-27 | the new list is the old one with the record appended at the end; it contains the record and is one longer |
| Reminders.ReminderStore.RemoveReminder | src/reminders.js:29-32 | the new list is the old one filtered by `r.id !== id`; no record with that id remains |
| Reminders.WithoutIdMembers | src/reminders.js:30 | removal keeps exactly the records whose id differs |
| Reminders.WithoutIdOrder | src/reminders.js:30 | removal distributes over concatenation and keeps or drops a single record by its id, so the kept records stay in order |
| Reminders.WithoutAbsentId | src/reminders.js:29-32 | removing an id that is not present leaves the list unchanged |
| Reminders.WithoutIdIdempotent | src/reminders.js:29-32 | removing the same id twice is removing it once |
| Reminders.RemoveAfterAdd | src/reminders.js:23-32 | after adding a record with a fresh id the list contains it, and removing its id restores the earlier list |
| Reminders.AppendFreshUnique | src/index.js:251 | appending a record with a fresh id keeps the stored ids unique |
| Reminders.WithoutIdUnique | src/reminders.js:29-32 | removal keeps the stored ids unique |
| Reminders.AppendFrontUnique | src/reminders.js:30 | putting a record with a fresh id in front keeps the ids unique |
| Config.GuildOf | src/config.js:25 | the guild's stored record, or the default `{ autoRole: null, autoresponses: [] }` when it has none |
| Config.ConfigStore.constructor | src/config.js:7-11 | a store whose file does not exist yet is the empty map |
| Config.ConfigStore.GetGuild | src/config.js:23-26 | the stored record of a known guild, the default `{autoRole: null, autoresponses: []}` otherwise; the map is not modified |
| Config.ConfigStore.SetGuild | src/config.js:28-32 | the new map is the old one with exactly the guild's entry replaced |
| Config.GetAfterSet | src/config.js:23-32 | reading a guild just written gives the value written; every other guild reads as before |
| Config.SetOverwrites | src/config.js:28-32 | a second write to the same guild replaces the first |
| Scheduling.HasChannel | src/index.js:72 | the truthiness test `if (rem.channelId)`: the id is present and not the empty string |
| Scheduling.DeliveryAttempts | src/index.js:72-85 | the client calls of one delivery: channel fetch and send when the reminder has a channel, then user fetch and DM send; characterised by `DeliveryTriesDm` and `DeliveryTriesChannel` |
| Scheduling.DeliveryTriesDm | src/index.js:81-85 | the user fetch is attempted on every delivery, whatever happened to the channel attempt, and the DM is sent exactly when the user was found |
| Scheduling.DeliveryTriesChannel | src/index.js:72-79 | the channel is fetched exactly when the reminder has a channel id, and then as the first call; otherwise the delivery starts with the user fetch |
| Scheduling.Cleanup | src/index.js:89-94 | the store after the `finally` block: without the id when the write goes through, unchanged otherwise; characterised by `CleanupRemovesId` |
| Scheduling.ScheduleEvents | src/index.js:57-61 | the client calls of `scheduleReminder`: a due reminder's delivery, nothing for a future one |
| Scheduling.ScheduleStore | src/index.js:57-61 | the store after `scheduleReminder`: a due reminder's cleanup, unchanged for a future one |
| Scheduling.Arm | src/index.js:57-66 | the timer index after `scheduleReminder`: no entry under the id for a due reminder, an entry with the remaining delay for a future one |
| Scheduling.Scheduler.constructor | src/index.js:54 | a fresh process has no timers and satisfies the index-within-store invariant |
| Scheduling.Scheduler.Deliver | src/index.js:69-96 | the channel is tried only when the reminder has one and the DM is always tried, whatever failed; afterwards the timer is gone and the record is removed from the store when the write goes through; the invariant is kept |
| Scheduling.CleanupRemovesId | src/index.js:89-90 | after a successful cleanup no record with the id is left and all other records stay; after a failed one the store is unchanged |
| Scheduling.Scheduler.Schedule | src/index.js:56-67 | for an id that has no timer yet, a due reminder is delivered at once and leaves no timer under its id; a future one is filed under its id with its remaining delay, nothing is delivered and the store is unchanged; the invariant is kept |
| Scheduling.Scheduler.Fire | src/index.js:63-65 | an expiring timer delivers the reminder it was armed for, and afterwards its id has no timer |
| Scheduling.Scheduler.Startup | src/index.js:99-108 | the handler counts every stored record and starts the deliveries of the overdue ones in store order. The store left is the records that survive, and exactly the future records get a timer, each for its own record and its remaining delay |
| Scheduling.StartupAttempts | src/index.js:102-103 | the client calls of the startup loop: each record's `ScheduleEvents`, in store order |
| Scheduling.StartupRemaining | src/index.js:102-103 | the store the startup loop leaves: the records that survive, in store order; equal to a filter by `RemainingIsFilter` |
| Scheduling.StartupTimers | src/index.js:102-103 | the timer index the startup loop leaves: each record armed in turn by `Arm`; characterised by `ArmedPrefix` |
| Scheduling.NotYetArmed | src/index.js:102-103 | when the startup loop reaches a record, its id has no timer yet, since stored ids are unique |
| Scheduling.FreshIdUnarmed | src/index.js:251-263 | an id no stored record carries has no timer, so the fresh id of `/remind` can be armed |
| Scheduling.TimersPrefixStep | src/index.js:103 | the timer index after one more record is the previous one with that record armed by `Arm` |
| Scheduling.StoreStep | src/index.js:103 | one round of the startup loop removes the current record exactly when it is due and its removal goes through |
| Scheduling.TimersStep | src/index.js:103 | one round of the startup loop gives the current record a timer exactly when it lies in the future and keeps the earlier timers |
| Scheduling.ArmedPrefix | src/index.js:102-103 | after scheduling a prefix of the store, exactly the future records of the prefix have a timer, each for its own record |
| Scheduling.ArmedAll | src/index.js:102-104 | at the end of the loop the timers describe the whole store |
| Scheduling.RemainingFrom | src/index.js:102-103 | the startup loop only drops records |
| Scheduling.RemainingIsFilter | src/index.js:102-103 | the store left by startup is the original store filtered by "not yet due, or its removal failed" |
| Commands.RemindOutcome | src/index.js:244-269 | the reply of `/remind`: invalid for a missing or zero deadline, too far beyond 365 days, failed when the store write throws, set otherwise; characterised by `RemindAccepts` |
| Commands.Remind | src/index.js:241-270 | the reply follows `RemindOutcome`, and a rejected or failed `/remind` changes neither the store nor the timers. An accepted one appends the record and then schedules it, keeping the invariant |
| Commands.RemindStore | src/index.js:261-263 | after an accepted `/remind`, the store is the old one plus the new record, unless the record was already due and its delivery removed it |
| Commands.RemindTimers | src/index.js:261-263 | an accepted `/remind` arms a timer for the fresh id exactly when the deadline lies ahead, and otherwise leaves the index as it was |
| Commands.RemindAccepts | src/index.js:244-263 | `/remind` succeeds with deadline `ts` if and only if the parse gives `ts`, `ts` is non-zero, it is at most 365 days ahead and the store write goes through |
| Commands.RemindDays | src/index.js:244-249 | for a non-zero deadline, `/remind <n>d` is accepted exactly when `n <= 365` and then sets the deadline `now + n` days (the deadline `0` is rejected by `!ts`) |
| Commands.Fires | src/index.js:132-133 | the per-rule test of the autoresponder loop: the keyword is non-empty and occurs, lower-cased, in the lower-cased message |
| Commands.Respond | src/index.js:130-136 | the response of the first rule, in list order, whose non-empty keyword occurs lower-cased in the lower-cased message; characterised by `RespondFirst` |
| Commands.FirstAutoresponse | src/index.js:130-137 | the loop replies with the response of the first rule, in stored order, whose non-empty keyword occurs case-insensitively in the message; it replies nothing if no rule fires |
| Commands.OnMessage | src/index.js:125-141 | bots and direct messages get no answer; otherwise the guild's first matching rule answers, at most once |
| Commands.RespondFirst | src/index.js:130-136 | the autoresponder answers if and only if some rule fires, and then with the response of the first rule that fires |
| Commands.RespondAfterAdd | src/index.js:222-227 | a rule added at the end answers only messages that no earlier rule answers |
| Commands.RemoveKeyword | src/index.js:230 | the rules whose keyword differs from the given one ignoring case, in their order |
| Commands.RemoveKeywordMembers | src/index.js:230 | `/autoresponse remove` keeps exactly the rules whose keyword differs ignoring case |
| Commands.RemoveUndoesAdd | src/index.js:222-232 | adding a rule and then removing its keyword is the same as only removing the keyword |
| Commands.RemoveKeywordIdempotent | src/index.js:230 | removing the same keyword twice is removing it once |
| Commands.AutoresponseCommand | src/index.js:214-237 | non-admins change nothing. `add` appends the rule to the guild's record, `remove` filters the rules by keyword, and `list` returns the rules without writing |
| Commands.ConfigCommand | src/index.js:167-211 | non-admins change nothing; `set` without its option changes nothing. `set` and `clear` write the guild's record with only the auto-role or the moderation-log field changed |
| Commands.SetThenClearAutoRole | src/index.js:175-190 | setting and then clearing the auto-role leaves the guild's record as clearing alone would, and other guilds are untouched |

## Left out

- The Discord client, gateway intents, login and `process.exit` are foreign I/O. A delivery's client calls are abstract events whose outcomes come from `env`.
- `src/deploy-commands.js` and `deploy-commands.js` only register slash-command JSON with a REST call.
- The `guildMemberAdd` role assignment and the `messageDelete` moderation-log message are library calls and cosmetic formatting. Only the configuration fields they read are modelled.
- Reply texts, `toLocaleString` formatting of the deadline and the numbered `list` text are not modelled. The replies are datatypes, and `list` returns the rules it would show.
- `Date.parse` is the parameter `dateParse`, an arbitrary partial function. Nothing is proved about ISO date formats.
- `crypto.randomUUID` and its random fallback are not modelled. `Commands.Remind` takes the id as a parameter and requires it to be fresh in the store.
- File-system persistence (`fs`, `JSON.stringify` and `JSON.parse`, `ensure`/`ensureDir`) is replaced by an in-memory field per store. A corrupt file's parse error is not modelled, nor is a write that fails after `writeFileSync` has truncated the file: a failed write leaves the modelled list as it was.
- TimeParser.ParseWhen: `Number` is a mathematical integer. Float rounding for very long digit strings, overflow of `n * mult` to `Infinity`, and the non-numeric edge cases are not modelled.
- Text.Lower: only ASCII letters are lower-cased. Non-ASCII letters never complete either pattern of `parseWhen`. They do change the autoresponder's match and `/autoresponse remove` (`Commands.RemoveKeyword` via `KeywordDiffers`): the source removes a stored keyword "Éclair" on `remove éclair`, while the model keeps it.
- The clock is one `now` per handler. `Date.now()` in `parseWhen`, in the 365-day check and in `scheduleReminder` is read once.
- Scheduling.Scheduler.Schedule: `void deliverReminder(rem)` runs asynchronously in the source. The model runs the delivery to completion inside `Schedule`. Deliveries touch only their own record and timer, so the final store and index do not depend on the interleaving; the order of log lines and replies is not modelled.
- Scheduling.Scheduler.Startup: the cross-record order of `events` comes from serialising the deliveries. In the source, each overdue `deliverReminder` is started with `void`, and after its first `await` the calls of different records interleave with network timing. Only each record's first fetch is issued in store order; `events` lists each record's calls as one contiguous block in store order.
- Scheduling.Scheduler.Schedule: it requires that the id has no timer yet. In the source, a second `scheduleReminder` for an armed id calls `setTimeout` again and overwrites the index entry without `clearTimeout`, leaving the first timer live, untracked and still delivering. The index cannot represent such a timer. No caller reaches that case: startup runs once over unique ids (`Scheduling.NotYetArmed`), and `/remind` uses a fresh id (`Scheduling.FreshIdUnarmed`).
- Real `setTimeout` timing and `clearTimeout` are not modelled. A timer is a map entry, and its expiry is the explicit step `Fire`.
- Node clamps a `setTimeout` delay above 2^31 - 1 ms (about 24.8 days) to 1 ms, so a reminder accepted for between about 25 and 365 days fires almost at once. The model cannot show this: a `Timer(rem, delay)` may be fired at any time, and nothing ties firing to its delay.
- The outer `catch` of `deliverReminder` and the top-level `Internal error` reply are not modelled. No modelled step throws, except the two store writes that have flags.
- Commands.Remind: a failure of `scheduleReminder` itself is not modelled. Only `addReminder` can fail (`addOk`).
