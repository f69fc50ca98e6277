# shulker-bot, modelled in Dafny

`bot.py` is a Discord bot that keeps a daily tally of how many shulker boxes
each member placed, and one leaderboard message. A member presses a button,
types a quantity into a form, and the bot:

1. validates the quantity (a positive integer; the form field holds at most 4 characters);
2. adds it to the member's row for today in the `shulker` table
   `(user_id, username, fecha, total)`, updating the row or inserting the first one;
3. re-renders today's ranking (`**i. name** — total shulker`, highest total first);
4. edits its latest embed message among the 10 newest in the ranking channel,
   or sends a new one when there is none.

On start-up (`on_ready`) it deletes its own messages among the 50 newest of the
form channel and posts one fresh form message.

The model replaces the platform and the database by plain values. The table is
a class holding a sequence of rows. Each SQL statement is one assignment to it.
A channel is a class holding its history, newest first, with `Send`, `Edit` and
`Delete`. `date.today()` and `bot.user` are parameters. A channel that
`get_channel` cannot find is `null`.

Files, one module each:

- `wrappers.dfy` — `Option`.
- `users.dfy` — `UserId`, shared by the table and the channels.
- `decimal.dfy` — decimal digits: reading them (`DigitsValue`) and writing them (`NatString`, `IntString`).
- `validation.dfy` — `Validate`, the first step of `ShulkerModal.on_submit`.
- `table.dfy` — rows, the upsert as a function on sequences, the leaderboard
  query, and the class `ShulkerTable` with the SQL statements.
- `messaging.dfy` — messages, embeds, the class `Channel`.
- `ranking.dfy` — the leaderboard text.
- `publish.dfy` — `actualizar_ranking`: edit-or-send over the 10 newest messages.
- `submission.dfy` — the whole `on_submit` handler.
- `cleanup.dfy` — `on_ready`.

Python's `int()` is simplified to an optional `+` or `-` followed by one or more
ASCII digits. Leading zeros are allowed, as in Python. Surrounding whitespace,
`_` separators and non-ASCII digits are not accepted, although Python accepts them.

`ORDER BY total DESC` has no tie-break. `ShulkerTable.SelectRanking` therefore
returns any permutation of today's entries whose totals never increase. It
makes that choice with `:|`. Every property of the ranking is proved for every
such answer.

## Model

| member | source | states |
|---|---|---|
| `Validation.Validate` | bot.py:90-100 | the text is accepted exactly when it parses to an integer greater than 0; the accepted value is the parsed one; under the 4-character cap it lies in 1..9999 |
| `Validation.AcceptedBelowLimit` | bot.py:83-94 | within 4 characters, a positive parse is at most 9999 |
| `Validation.ValidateAcceptsRange` | bot.py:87-94 | every n in 1..9999 fits in the field as its decimal text and is accepted as n |
| `Validation.ValidateSigns` | bot.py:92-94 | a text starting with `-` is always rejected; `+7` and `0042` are accepted as 7 and 42 |
| `Validation.ValidateRejects` | bot.py:92-100 | `0`, `-3`, `abc` and the empty text are rejected |
| `Validation.ParseInt` | bot.py:92 | simplified `int()`: an optional sign, then one or more ASCII digits; a result exists only for non-empty text, and a negative result only after a `-` sign |
| `Validation.ParseIntString` | bot.py:92 | parsing the decimal text of any integer gives that integer back |
| `Table.Find` | bot.py:106-110 | the row `fetchone` returns is the first one with key (user, day), and is absent exactly when no row has that key |
| `Table.ShulkerTable.constructor` | bot.py:30-38 | a freshly created table is empty and satisfies the invariant (one row per key, positive totals) |
| `Table.ShulkerTable.SelectTotal` | bot.py:106-110 | the SELECT returns nothing exactly when no row has the key, and otherwise the total of a row with that key |
| `Table.ShulkerTable.UpdateTotal` | bot.py:114-117 | the UPDATE sets the total of every row with the key and changes nothing else |
| `Table.ShulkerTable.Insert` | bot.py:120-123 | the INSERT appends exactly one row with the given fields |
| `Table.ShulkerTable.SelectRanking` | bot.py:46-52 | the result is a permutation of today's (username, total) entries with non-increasing totals |
| `Table.UpsertKeepsInvariant` | bot.py:106-123 | an upsert with a positive quantity keeps "at most one row per (user_id, fecha)" and "every total is positive" |
| `Table.UpsertTotal` | bot.py:112-123 | afterwards a row for (user, today) exists and its total is the old total (0 if none) plus the quantity |
| `Table.UpsertFrame` | bot.py:112-123 | rows with another key are unchanged; an updated row keeps its username and key; a row is appended exactly when none existed |
| `Table.UpsertOtherTallies` | bot.py:114-117 | the stored total of every other (user, day) key is unchanged |
| `Table.UpsertedAllTally` | bot.py:106-125 | after any series of submissions by one user on one day, the stored total is the old tally plus their sum |
| `Table.TodayEntriesMembers` | bot.py:46-51 | an entry is selected exactly when some row dated today carries that username and total |
| `Table.TodayEntriesCount` | bot.py:46-55 | the query yields one entry per row dated today, and none exactly when no row is dated today |
| `Table.RankingQueryExists` | bot.py:46-52 | every table has an answer to the ordered query |
| `Ranking.BuildDescription` | bot.py:57-59 | the loop's text is the ranking body: line i is `**i. name** — total shulker`, for i = 1..n in query order |
| `Ranking.RankLineSingleBreak` | bot.py:59 | each rank line ends in its one and only line break |
| `Ranking.RankingBodyLineCount` | bot.py:57-59 | when no name contains a line break, the body has exactly one line per query row |
| `Ranking.RankingBodyLine` | bot.py:57-59 | the body starts with the first k lines followed by line k+1, numbered k+1: ranks run 1..n without gaps |
| `Ranking.RankingBodyEmpty` | bot.py:54-59 | the body is empty exactly when the query returned no row |
| `Ranking.RankingContents` | bot.py:46-59 | whatever order the database picks, the ranking has one entry per row dated today, none from other days, and non-increasing totals |
| `Ranking.LowestRankedLast` | bot.py:46-51 | an entry whose total is below every other entry's is ranked last |
| `Ranking.TiesExample` | bot.py:46-51 | with totals A 5, B 9, C 9, A is third in every legal order, and B and C may come in either order |
| `Messaging.Channel.Send` | bot.py:77 | a sent message becomes the newest |
| `Messaging.Channel.Edit` | bot.py:74 | an edit replaces one message's embeds in place |
| `Messaging.Channel.Delete` | bot.py:176 | a delete removes exactly one message |
| `Publish.FirstEditable` | bot.py:72-75 | the scan stops at the first message among the 10 newest that is bot-authored and has embeds, and finds none exactly when none qualifies |
| `Publish.Publish` | bot.py:72-77 | the channel afterwards is the old history with that message's embeds replaced, or with one new bot message in front when none qualifies |
| `Publish.PublishSingleWrite` | bot.py:72-77 | a publish makes exactly one write: one qualifying message among the 10 newest is edited, or one message is sent |
| `Publish.RepublishEditsInPlace` | bot.py:72-77 | publishing twice equals publishing once with the second body, because the second call edits the first call's message |
| `Publish.StaleRankingBeyondWindow` | bot.py:72-77 | when ten messages by someone else lie in front of the previous leaderboard, a publish sends a second one and both stay in the channel |
| `Publish.ActualizarRanking` | bot.py:43-77 | no row for today, or no ranking channel: the channel is unchanged; otherwise a non-empty ranking body of a legal query answer is published by edit-or-send |
| `Submission.RecordSubmission` | bot.py:90-125 | a rejected text leaves the table unchanged; an accepted one upserts it, keeps the invariant and reports the stored new total |
| `Submission.HasRowIsRanked` | bot.py:46-55 | a user with a row for today makes today's ranking non-empty |
| `Submission.OnSubmit` | bot.py:90-144 | a rejection touches neither table nor channel; the amount added is the validated text; the channel is unchanged whenever the refresh publishes nothing; an accepted submission always triggers a refresh, which, on the same day, publishes unless the channel is missing |
| `Submission.ThreeThenTwo` | bot.py:92-123 | submitting `3` then `2` on a new day stores 5 |
| `Cleanup.DeleteOwnMessages` | bot.py:174-176 | the history afterwards is the window of the 50 newest without the bot's messages, followed by the older messages untouched; the count of deletions is the number of bot messages in the window |
| `Cleanup.OnReady` | bot.py:166-186 | with no form channel nothing happens; otherwise the cleaned history gets exactly one new form message in front |
| `Cleanup.KeptLength` | bot.py:174-176 | deleted plus kept messages make up the window |
| `Cleanup.KeptNotBot` | bot.py:174-176 | no bot message is left in the window |
| `Cleanup.KeptCounts` | bot.py:174-176 | every message by someone else survives as often as it occurred |
| `Cleanup.SingleFormAfterReady` | bot.py:174-186 | when no bot message lies beyond the window, the channel afterwards holds exactly one bot message, the new form |
| `Cleanup.ReadyIsIdempotent` | bot.py:166-186 | under the same condition, a second start-up deletes exactly the previous form and leaves the channel as the first one did |
| `Cleanup.StaleFormBeyondWindow` | bot.py:174-176 | with 51 stale forms, the one beyond the window survives next to the new form |

## Left out

- The Discord client, intents, `bot.run`, the token and the connection `print` in `on_ready`: platform I/O, logging and lifecycle.
- Embed titles, colours, emoji, footers and the log embed's fields. An embed is reduced to its description text. The form's button view is not modelled.
- The SQLite connection, the cursor, `CREATE TABLE` and `db.commit()`: the table is an in-memory sequence that starts empty.
- The log-channel send and the ephemeral replies. They appear only as the `Outcome` value: `Rejected` is the error reply; `Recorded` carries the quantity and the new total the log embed shows.
- Concurrency between handlers. The SELECT, the UPDATE or INSERT, and the commit are synchronous sqlite3 calls with no `await` between them, so each table update is one atomic step, as modelled. `actualizar_ranking` does yield at `channel.history`, `msg.edit` and `channel.send`, so two refreshes can interleave: both may find no leaderboard and send two, or an older render's edit may land last. `on_ready` also yields at `channel.history`, at each `message.delete()` and at the form's `channel.send`, so a submission's refresh or another start-up can run between its deletions and its send. The model runs each refresh and each start-up as one uninterrupted step and does not capture these interleavings.
- Storage faults: the code has no handling for them, and the model has no failure path for SQL statements.
- Platform call failures: `Send`, `Edit`, `Delete` and the history scan never fail in the model. In the code, `channel.history`, `msg.edit`, `channel.send` and `message.delete()` can raise (an HTTP error, a missing permission, a leaderboard longer than the platform's limit on an embed description), and nothing catches the exception. In `on_submit` it escapes after `db.commit()`: the tally is stored, but the leaderboard is not updated and no confirmation is sent; a failing log-channel send escapes the same way, before the refresh runs. In `on_ready` it ends the handler before the form is sent. `OnSubmit`'s promise that a refresh publishes unless the channel is missing, and `OnReady`'s promise of a new form, hold only for calls that succeed.
- CPython `int()` details: whitespace, `_` separators and Unicode digits are not accepted by `ParseInt`.
- `date.today()`: it is a parameter. `OnSubmit` takes the two readings the code makes as two parameters.
- Texts longer than 4 characters: the platform refuses them before the handler runs, so `Validate` and the handlers require `|text| <= 4`.
- Tie-break: the code sets none, and the model invents none. Rows with equal totals may be listed in either order.
- Cleanup window: after `on_ready`, exactly one form is visible only if no bot message lies beyond the 50 newest. `SingleFormAfterReady` carries that condition, and `StaleFormBeyondWindow` shows what happens without it. This follows from scanning only a bounded window.
- Ranking window: the previous leaderboard is found only among the 10 newest messages of the ranking channel. Once ten other messages lie in front of it, the next refresh sends a second leaderboard and the first one stays; `StaleRankingBeyondWindow` shows this case.
