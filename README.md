# Reminder logic of feline-bot, modelled in Dafny

feline-bot is a Discord bot. Its reminder logic has two small stateful parts, and this project
models both and proves what they do.

* **The reminder cog** (`cogs/reminder.py`). The `Reminder` cog keeps a list of records
  `{task, frequency, time, channel}`. The `remind` command parses an `HH:MM` time and appends one
  record. The `check_reminders` loop runs once a minute. It visits the records in list order and
  notifies each visited record whose hour and minute equal the current ones. It then removes a notified record whose frequency,
  lowercased, is `"once"`. The removal happens inside the `for` loop over the same list. Python's
  list iterator works by index, so after a removal the record that followed the visited one is
  not visited in that tick (when `remove` deletes an earlier equal copy, it is still the record
  after the visited one that is passed over). The model keeps this behaviour: `ReminderCog.ScanFrom` walks the list by index and uses
  `Seqs.RemoveFirst` (Python's `list.remove`, which deletes the first equal element). The method
  `ReminderCog.Reminder.CheckReminders` is a `while` loop over the list field, proved equal to
  `ReminderCog.Tick`. The lemmas about `Tick` state what a tick guarantees. One of them,
  `ScanSkipsNext`, shows for any list that the record after a removed one is not visited;
  `TickSkipsAfterRemoval` is its two-record example, where two adjacent due "once" records yield
  one notification.
* **The per-user store** (`db_connect.py`). It is a MongoDB collection of user documents
  `{timezone, reminders}`, modelled as a `map<UserId, UserDoc>` whose absent fields are `None`.
  The class `DbConnect.UsersCollection` has one method per function of the module. Each method
  is specified by a pure function on the map: `Lookup` (find, or insert the default
  `{"UTC", []}`), `SetTimezone` (`$set` with upsert), `PushReminder` (`$push` with upsert) and
  `PullTask` (`$pull` by `task`, without upsert). Lemmas state idempotence, order preservation,
  and how push and pull interact.

Inputs that the source takes from its environment are parameters here:
* the current time (`datetime.now()`) is the `now` argument of `CheckReminders`;
* the invoking channel (`ctx.channel`) is a `ChannelId` argument of `Remind`;
* the collection's current contents are the constructor argument of `UsersCollection`.

Messages the bot would send are results. `Remind` returns a `Reply`. `CheckReminders` returns
the `Notification`s (channel and task) in the order they are sent.

What the code does, and so what the model does:
* The tick compares hour and minute for equality, for every frequency. It never reschedules a
  reminder and never converts timezones. Any frequency other than "once" ("daily" or anything
  else) stays in the list.
* The tick removes entries while it iterates over the list, and the model does the same.
* The cog keeps its list in memory. It does not use the store of `db_connect.py`, so the two
  models are independent.

Files: `wrappers.dfy` (Option), `seqs.dfy` (subsequences, `list.remove`), `clock.dfy` (the
`%H:%M` time language), `reminder_cog.dfy`, `db_connect.dfy`.

## Model

| member | source | states |
|---|---|---|
| `ReminderCog.Reminder.constructor` | cogs/reminder.py:5-7 | a new cog starts with an empty reminder list |
| `Clock.Parse` | cogs/reminder.py:14 | a successful parse yields an hour below 24 and a minute below 60 |
| `Clock.ParseAccepts` | cogs/reminder.py:14 | a string parses exactly when it is a one- or two-digit hour field (value at most 23), a colon and a one- or two-digit minute field (value at most 59); the parsed time has the values of those digits |
| `Clock.ParseComplete` | cogs/reminder.py:14 | every such spelling, padded or not (`7:5`, `07:05`), parses to the time its digits denote |
| `ReminderCog.Lower` | cogs/reminder.py:33 | lowercasing keeps the length and lowercases each character independently |
| `ReminderCog.OnceSpellings` | cogs/reminder.py:33 | a frequency counts as "once" exactly when it is the four letters o, n, c, e in any letter case |
| `ReminderCog.IsOnce` | cogs/reminder.py:33 | a record is one-time exactly when its frequency is the four letters o, n, c, e in any letter case |
| `ReminderCog.Due` | cogs/reminder.py:29 | a record is due exactly when its time of day equals the current one (hour and minute, no threshold) |
| `Seqs.RemoveFirst` | cogs/reminder.py:34 | `list.remove` deletes the element at the index of the first equal element and nothing else; so it shortens the list by one, removes exactly one copy, and leaves a subsequence |
| `ReminderCog.ScanFrom` | cogs/reminder.py:28-34 | the `for` loop resumed at list index `i`: it visits `l[i]`, notifies it when due, removes its first equal copy when it is also "once", and moves on to index `i + 1` of the list as it now is; it carries no contract of its own, and the `Tick` lemmas below state what it guarantees |
| `ReminderCog.Tick` | cogs/reminder.py:24-34 | one run of `check_reminders`, the scan from index 0; its meaning is stated by the `Tick*` lemmas below |
| `ReminderCog.Reminder.Remind` | cogs/reminder.py:11-21 | a parsable time appends exactly the record `{task, frequency, parsed time, channel}` at the end, earlier entries unchanged, and confirms; an unparsable time leaves the list unchanged and only answers with the format error |
| `ReminderCog.Reminder.CheckReminders` | cogs/reminder.py:24-34 | the index loop that removes during iteration leaves the list and sends the messages that `Tick` prescribes; the new list is a subsequence of the old; there are no more messages than due records |
| `ReminderCog.TickFiresOnlyDue` | cogs/reminder.py:28-30 | every notified record has exactly the current hour and minute (equality, not a threshold) |
| `ReminderCog.TickRemainingSubSeq` | cogs/reminder.py:28-34 | after a tick the list is a subsequence of the list before it: nothing is added, modified or reordered |
| `ReminderCog.TickConsumesFiredOnce` | cogs/reminder.py:32-34 | each notified "once" record removes exactly one equal record, and nothing else is removed: the old list is the new list plus the notified "once" records |
| `ReminderCog.TickKeepsOthers` | cogs/reminder.py:28-34 | a record that is not both due and "once" keeps all of its copies through a tick |
| `ReminderCog.TickNeverRemovesRecurring` | cogs/reminder.py:32-34 | a record whose lowercased frequency is not "once" is still in the list after a tick |
| `ReminderCog.TickFiresAtMostDue` | cogs/reminder.py:28-30 | the notified records are a subsequence of the due records, so there are at most as many notifications as due records |
| `ReminderCog.TickWithoutDueOnce` | cogs/reminder.py:28-34 | when no due record is "once", the list is unchanged and every due record is notified, in list order |
| `ReminderCog.TickIdleMinute` | cogs/reminder.py:29 | a minute at which no record is due sends nothing and leaves the list unchanged |
| `ReminderCog.ScanSkipsNext` | cogs/reminder.py:28-34 | in any list, when the record visited at index `i` is due and "once", it is notified and removed, and the rest of the scan notifies only records from index `i + 2` of the old list on, so the record at `i + 1` is passed over in that tick |
| `ReminderCog.TickSkipsAfterRemoval` | cogs/reminder.py:28-34 | the two-record example of `ScanSkipsNext`: for two adjacent due "once" records, equal or not, only the first is notified and the second stays in the list, so notifications fall short of the due records |
| `DbConnect.UsersCollection.constructor` | db_connect.py:14-16 | the handle sees the collection's current documents |
| `DbConnect.Lookup` | db_connect.py:20-24 | an existing user's stored document is returned and nothing changes; an unknown user gets `{timezone: "UTC", reminders: []}` inserted and returned |
| `DbConnect.UsersCollection.GetUserData` | db_connect.py:18-24 | as `Lookup`, on the collection's state |
| `DbConnect.SetTimezone` | db_connect.py:28 | only that user's timezone is set; an absent user gets a document with just that field and no reminders field; every other user is unchanged |
| `DbConnect.UsersCollection.UpdateTimezone` | db_connect.py:26-28 | the collection becomes `SetTimezone` of the old one |
| `DbConnect.SetTimezoneIdempotent` | db_connect.py:28 | setting the same timezone twice equals setting it once |
| `DbConnect.PushReminder` | db_connect.py:32 | the reminder goes on the end of that user's reminders, creating the document and the array if absent; the timezone field and every other user are unchanged |
| `DbConnect.UsersCollection.AddReminder` | db_connect.py:30-32 | the collection becomes `PushReminder` of the old one |
| `DbConnect.UsersCollection.GetReminders` | db_connect.py:34-37 | returns the user's reminders, or `[]` when the field is absent; an unknown user first gets the default document and the result is `[]` |
| `DbConnect.WithoutTask` | db_connect.py:41 | no element with the pulled task remains |
| `DbConnect.WithoutTaskSubSeq` | db_connect.py:41 | the elements left by a pull keep their relative order |
| `DbConnect.WithoutTaskKeeps` | db_connect.py:41 | every element with a different task keeps all its copies; elements with the pulled task have none |
| `DbConnect.PullTask` | db_connect.py:41 | only that user's reminders are filtered; the timezone, the presence of the array and every other user are unchanged; an unknown user gets no document |
| `DbConnect.UsersCollection.RemoveReminder` | db_connect.py:39-41 | the collection becomes `PullTask` of the old one, and is unchanged for an unknown user |
| `DbConnect.PullTaskIdempotent` | db_connect.py:41 | removing the same task twice equals removing it once |
| `DbConnect.PullKeepsOtherTasks` | db_connect.py:41 | after a pull, a reminder with another task keeps all its copies in that user's list, and one with the pulled task has none |
| `DbConnect.PullAfterPush` | db_connect.py:30-41 | pushing a reminder with task `t` and then pulling `t` leaves the same list as pulling `t` alone |

## Left out

- Discord I/O: `ctx.send` and `channel.send` become returned values. The wording, emoji and markdown of the messages are not modelled, only their arguments.
- A `channel.send` that raises: depending on the exception, a failing send either ends the loop or reruns the tick; neither is modelled. The model treats every send as completing.
- The `tasks.loop(seconds=60)` timer, `before_loop`/`wait_until_ready`, `setup` and `check_reminders.start()`: this is runtime scheduling. A tick is one call of `CheckReminders`.
- Interleaving at `await` points: a `remind` running while a tick awaits a send could change the list mid-tick. Calls are modelled as sequential.
- Seconds and microseconds of `datetime.now()`: the tick compares only hour and minute, so `now` carries only those.
- Clock.Parse: accepts ASCII digits only. Python's `\d` in `strptime` also matches other Unicode decimal digits; those spellings are rejected here.
- ReminderCog.Lower: lowercases ASCII letters only. No character outside ASCII lowercases to one of o, n, c, e, so the "once" test is unaffected. Other frequencies may lowercase differently from Python, but only the "once" comparison is used.
- Argument conversion by discord.py (quoting, missing or extra arguments) happens before `remind` runs and is not modelled.
- MongoDB plumbing: the connection, `dotenv`, the `_id` field of documents, and network or server errors.
- Documents whose `reminders` field is not an array. On those, `$push` and `$pull` fail on the server. The model's documents always hold an array or nothing.
- Array elements that are not documents: every element is a `StoredReminder` with an optional `task`.
- The race between `find_one` and `insert_one` in `get_user_data` when two callers create the same user concurrently.
- Timezone conversion, UTC normalisation and daily rescheduling: the code does not implement them, so they are not modelled.
- run.py, init.py and module/poke.py: bot start-up, extension loading, token handling and a one-line command. They have no reminder state or logic.
