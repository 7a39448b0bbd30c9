# SIGMA bot: the `users` table, daily check-in and join recorder

This project models the record-keeping core of the SIGMA community bot, a
Discord bot written in Python (`bot.py`). The bot keeps one row per user in
an sqlite table `users`. Each row holds a balance, a count of daily
check-ins, the date of the last check-in and the date the user joined the
server. Three handlers touch that table:

- **Lazy creation.** `ensure_user` / `get_user` insert a zeroed row if none
  exists (`INSERT OR IGNORE`), then read it.
- **Daily check-in.** The `/출석` command pays `DAILY_REWARD` (100 000) once
  per date. If the stored `last_checkin` equals today's ISO date, it refuses
  and shows the current balance. Otherwise it adds the reward, counts one
  more check-in and stores today's date, all in one `UPDATE`.
- **Join recorder.** On a member join, bots are ignored. Otherwise the row
  is created if absent, and `joined_at` is written only while it is NULL or
  empty. The date written is the platform's join date, or the placeholder
  `알 수 없음` ("unknown") when the platform gives none.

It also models `format_won`, which renders an amount as Python's
`f"{n:,}₩"` (for example `100,000₩`).

Modules:

- `Wrappers` (`wrappers.dfy`): the `Option` type used for the nullable
  columns.
- `Won` (`won.dfy`): `format_won` as pure functions. It comes with an
  independent reader (`ParseWon`) and a comma splitter (`SplitCommas`) to
  state the round trip and the grouping.
- `Users` (`users.dfy`): the row type, the invariant
  `balance == total_checkins * DAILY_REWARD`, and one pure step function per
  handler (`Ensure`, `CheckInStep`, `JoinStep`). It also holds the class
  `UserTable`. Its field `users: map<UserId, UserRecord>` is the table, and
  its methods perform each handler statement by statement, as the Python does
  inside one `with db() as conn:` transaction. Each method is proved equal to
  its step function, and the lemmas about the step functions state the
  handlers' rules.
- `History` (`history.dfy`): any sequence of handler calls. Its lemmas say
  what holds over every history:
  - rows are never deleted;
  - balances never fall;
  - the invariant holds throughout;
  - a non-empty join date is never rewritten;
  - a user is paid at most once per date, provided the dates the clock gives
    that user's check-ins never return to a date they have left.

The clock (`date.today()`) and the join date formatting (`strftime`) are
parameters: `today` is passed to the check-in, and the join date, already
formatted, is passed to the join handler.

Behaviour of the code worth knowing:

- Only the join handler writes `joined_at`. A row created by `/출석` or
  `/프로필` keeps `joined_at` NULL until a join event arrives.
- When the platform has no join date, the join handler stores the
  placeholder text `알 수 없음`. That text is truthy, so a later join that
  carries a real date does not replace the placeholder
  (`Users.JoinPlaceholderSticks`).
- The test on `joined_at` is Python truthiness: both NULL and the empty
  string count as unset and are overwritten by a join.
- A refused check-in reports only the stored balance.
- The check-in compares only against the stored last date. A user is
  therefore paid at most once per date only while the host clock does not
  go back. A sequence of dates D, E, D pays D twice
  (`History.ClockBackPaysTwice`).

## Model

| member | source | states |
|---|---|---|
| `Won.FormatWon` | bot.py:67-68 | the rendering of any amount ends in the won sign `₩` |
| `Won.Decimal` | bot.py:67-68 | the digits Python prints for a non-negative amount: at least one, all decimal digits, no leading zero unless the amount is 0 |
| `Won.Grouped` | bot.py:68 | the `,` format option on a digit string: never shorter than the digits, and it adds one comma for every full three digits after the first (c commas with 3c <= digits - 1 < 3c + 3); shape and content are in `GroupedDigits` and `GroupedShape` |
| `Won.DecimalValue` | bot.py:67-68 | the printed digits read back as the amount itself |
| `Won.GroupedDigits` | bot.py:67-68 | comma grouping starts with a digit and, with its commas deleted, gives back the digits it grouped |
| `Won.GroupedShape` | bot.py:67-68 | comma grouping splits into a first group of one to three digits and later groups of exactly three, which joined give back the digits |
| `Won.FormatWonShape` | bot.py:67-68 | for n >= 0: the text ends in `₩`, starts with a digit, deleting the commas leaves the decimal representation of n, and the groups have 1-3 digits (first) and exactly 3 (each later one) |
| `Won.FormatWonRoundTrip` | bot.py:67-68 | for every integer n, negative ones included, reading the rendering back (sign, digits, commas ignored, `₩`) gives n |
| `Won.FormatWonReward` | bot.py:30 | the daily reward renders as `100,000₩` |
| `Won.FormatWonNegative` | bot.py:67-68 | 0 renders as `0₩` and -1234 as `-1,234₩` (sign in front of the grouped digits) |
| `Users.Ensure` | bot.py:60-61 | insert-or-ignore: the id is present afterwards, no other key is added, every stored row is kept as it was, and a new row has the column defaults 0, 0, NULL, NULL |
| `Users.Truthy` | bot.py:100 | Python truthiness of the nullable `joined_at` text: false for exactly NULL and the empty string |
| `Users.Rewarded` | bot.py:152-158 | the row after a grant: balance up by exactly DAILY_REWARD, total up by exactly 1, last check-in `today`, join date kept; it keeps balance == total_checkins * DAILY_REWARD |
| `Users.CheckInStep` | bot.py:137-158 | the check-in transition: the id is present afterwards, every other row is unchanged, the join date is kept, the reported balance is the stored one after the step, and a grant reports the new total and stores `today`; refusal and grant are specified by `CheckInRefusedIff`, `CheckInRefusedUnchanged`, `CheckInGranted` and `CheckInConsistent` |
| `Users.JoinedString` | bot.py:94 | the date the join handler works with: the formatted platform date when there is one, otherwise the placeholder, which is truthy |
| `Users.JoinStep` | bot.py:91-105 | the join transition: a bot leaves the table unchanged with no welcome; otherwise the id is present and a welcome is produced; other rows, and balance, total and last check-in of the id, are unchanged; a truthy join date leaves the table as it was; the write itself is specified by `JoinRecords` |
| `Users.EnsureCreatesZeroed` | bot.py:43-49 | on an absent id exactly one row is added: balance 0, total 0, last check-in and join date NULL; the others are unchanged |
| `Users.EnsureKeepsExisting` | bot.py:60-61 | on a present id the insert is ignored and the table is unchanged |
| `Users.EnsureIdempotent` | bot.py:63-65 | a repeated fetch leaves the table as the first one did (no reset, no duplicate) and sees the stored row, or the zeroed one for a new id |
| `Users.EnsureConsistent` | bot.py:45-46 | creating a row keeps balance == total_checkins * DAILY_REWARD on every row |
| `Users.UserTable.constructor` | bot.py:39-51 | the freshly created table is empty and satisfies the invariant |
| `Users.UserTable.EnsureUser` | bot.py:60-61 | the table afterwards is `Ensure` of the table before, and the invariant is kept |
| `Users.UserTable.GetUser` | bot.py:63-65 | ensures the row, then returns the stored row for that id (the zeroed row for a new id); the table afterwards is `Ensure` of the table before; on a consistent table the returned row has balance == total_checkins * DAILY_REWARD >= 0 |
| `Users.UserTable.CheckIn` | bot.py:136-158 | the new table and the result are exactly `CheckInStep` of the old table; on a consistent table the invariant is kept, the reported balance is non-negative, and a grant reports balance == total * DAILY_REWARD with total >= 1 |
| `Users.UserTable.OnMemberJoin` | bot.py:90-105 | the new table and the welcome values are exactly `JoinStep` of the old table; on a consistent table the invariant is kept and the welcome shows balance == total * DAILY_REWARD |
| `Users.CheckInRefusedIff` | bot.py:142 | a check-in is refused if and only if the row exists and its last check-in equals `today` |
| `Users.CheckInRefusedUnchanged` | bot.py:142-150 | a refused check-in leaves the whole table unchanged and reports the stored balance |
| `Users.CheckInGranted` | bot.py:152-158 | otherwise the row gets balance + DAILY_REWARD, total + 1 and last check-in `today`; its join date and every other row are unchanged; the result carries the new balance and total |
| `Users.CheckInTwiceSameDay` | bot.py:137-158 | two check-ins on one date: the first grants, the second is refused with balance old + DAILY_REWARD and changes nothing |
| `Users.CheckInNextDay` | bot.py:137-158 | after a grant, a check-in on a different date grants again: balance old + 2 * DAILY_REWARD, total old + 2 |
| `Users.CheckInConsistent` | bot.py:152-158 | a check-in keeps balance == total_checkins * DAILY_REWARD, every balance is non-negative, and a grant reports balance == total * DAILY_REWARD with total >= 1 |
| `Users.JoinBotIgnored` | bot.py:91-92 | a bot's join leaves the table untouched and produces no welcome |
| `Users.JoinRecords` | bot.py:94-105 | a human join creates the row if absent and sets `joined_at` to the join date (or the placeholder) only when it was NULL or empty; balance, total, last check-in and other rows are untouched; the welcome shows the stored date, balance and total |
| `Users.JoinTwiceKeepsFirst` | bot.py:96-105 | a second join with a different date keeps the first, non-empty, date |
| `Users.JoinedAtWrittenOnce` | bot.py:100 | once `joined_at` holds a non-empty text, no join changes the table |
| `Users.JoinPlaceholderSticks` | bot.py:94-105 | a join without a platform date stores `알 수 없음`, and a later dated join keeps it |
| `Users.JoinConsistent` | bot.py:96-105 | a join keeps balance == total_checkins * DAILY_REWARD on every row |
| `Users.ScenarioCheckIns` | bot.py:136-158 | user 42, never seen: the row is 0/0/NULL/NULL; check-in on 2024-01-01 gives 100000/1, again that day is refused at 100000, on 2024-01-02 gives 200000/2 |
| `Users.ScenarioJoins` | bot.py:96-105 | user 99 joining on 2024-03-01 and again on 2024-03-05 keeps 2024-03-01 |
| `History.StepConsistent` | bot.py:60-158 | each handler (fetch, check-in, join) keeps balance == total_checkins * DAILY_REWARD |
| `History.StepMonotone` | bot.py:60-158 | each handler keeps every row, never lowers a balance, and never rewrites a non-empty join date |
| `History.StepLastCheckin` | bot.py:155-158 | only a check-in of that user moves the user's last check-in date |
| `History.RunConsistent` | bot.py:45-46 | over any sequence of handler calls, balance == total_checkins * DAILY_REWARD holds on every row |
| `History.RunMonotone` | bot.py:60-158 | over any sequence of handler calls, no row disappears, no balance falls, and no non-empty join date is rewritten |
| `History.NoDayNoGrant` | bot.py:152-158 | a date on which the user never checks in is never paid |
| `History.AtMostOneGrantPerDay` | bot.py:137-158 | over any sequence of handler calls, each user is paid at most once per date (never for the stored last date), provided the stored last date followed by that user's check-in dates never returns to a date it has left |
| `History.TwoCheckIns` | bot.py:142-158 | check-ins on the same date twice pay that date once; on two different dates the second is paid too |
| `History.ClockBackPaysTwice` | bot.py:142 | with the dates D, E, D the same date D is paid twice: the clock condition of `AtMostOneGrantPerDay` cannot be dropped |

## Left out

- The Flask health-check server and its thread (bot.py:16-26): network I/O
  and concurrency, with no effect on the table.
- The sqlite connection, the table DDL in `init_db` and the column
  migration in `migrate_db` (bot.py:34-58). The table is an in-memory map
  that starts empty. Rows written by an older schema, which may not satisfy
  the invariant, are not modelled.
- Storage failures (a locked or corrupt database). Each handler is modelled
  as a transaction that commits.
- The Discord client, intents, command-tree sync, `on_ready`, `ping`,
  `client.run` and the `TOKEN` check (bot.py:70-86, bot.py:192-201): gateway
  and configuration.
- `date.today()` and `member.joined_at.strftime` (bot.py:94, bot.py:137):
  the clock and the datetime library. Their results are parameters.
- Welcome-channel selection and the construction and sending of every embed
  (bot.py:107-130, bot.py:143-149, bot.py:160-167, bot.py:177-190). Only the
  values the embeds display are kept: the `CheckInResult` and the
  `JoinView`.
- The profile command (bot.py:172-190) is modelled only as a fetch of the
  user's row (the `Fetch` event). Its reply is presentation.
- sqlite's 64-bit INTEGER limit on `balance`. Reaching it would take about
  9.2 * 10^13 check-ins, so the model uses unbounded integers.
- Races between concurrent handlers for the same user. Each handler is
  atomic.
