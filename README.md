# Registration bot: a Dafny model

The bot is a Discord bot backed by SQLite. Every guild message that does not come
from a bot and does not start with `!setconfig` goes into a bounded queue of
capacity 100, and the queue is drained at once. The worker then reads the guild's
configuration: five ids stored in the `guild_configs` table. The next step
depends on the channel the message was posted in:

- **Registration channel.** The worker parses a `Name: …, Age: …` form. It stores
  the form in `registrations`, grants the advanced role and confirms.
- **Manual channel.** The worker parses a `Manual: …` request. It alerts the
  administrators in their channel and tells the requester that the request was
  sent.

`!setconfig <registration> <manual> <admin channel> <admin role> <advanced role>`
is handled without queueing. Only an administrator may use it. It checks that the
message has exactly six words and parses five `u64` ids, then replaces the
guild's configuration row and confirms.

The model is split into one module per concern:

- `RustStr`: the parts of Rust's `str` the parsers use (`char::is_whitespace`,
  `trim`, `trim_start_matches`, `starts_with`, `split(',')`, `split_whitespace`).
- `Ids`: `u64`/`i64` as bounded integers, the two `as` casts between them, and
  `str::parse::<u64>`.
- `Forms`: `parse_form` and `parse_manual_form`, as written.
- `Config`: the configuration, its stored row, `GuildConfig::get` and the
  `REPLACE INTO` upsert.
- `Actions`: the calls the bot makes to Discord and SQLite, as values.
- `Command`: `handle_setconfig`.
- `Worker`: `process_message_worker`, and the drain of a sequence of queued
  messages.
- `Bot`: the `message` event handler. This is a class whose fields are the
  configuration table, the registrations table, the queue buffer, and the log of
  every call made. Its methods `Send`, `TryRecv`, `ProcessQueue` and `Message`
  change those fields as the Rust code does.

The calls to Discord and SQLite appear in two ways:

- Calls with an effect are action values (`Action`), recorded in the order
  they were attempted. These are the replies, the registrations insert, the
  role grant, the admin alert and the configuration write.
- Calls whose result the code looks at have an outcome input (`Outcomes`,
  `CommandCalls`) that says whether they succeeded. These are the
  configuration query, the member and permission lookups of `!setconfig`, the
  insert, the grant, the alert, the configuration write and the command's reply.

So the member and permission lookups and the configuration query are outcomes
only, with no action. The worker's replies are actions only, because their
results are discarded. The `i`-th message of a drain meets the outcomes
`env(i)`.

The model follows the code where it departs from the documented form. In
`"Name: Alice, Age: 30"` the piece after the comma starts with a space. So
`trim_start_matches("Age:")` strips nothing, and the stored age is `"Age: 30"`,
not `"30"` (`Forms.ParseFormExampleSpaced`, `Worker.ProcessExample`). Any text
starting with `!setconfig`, such as `!setconfigX 1 2 3 4 5`, is taken for the
command, and its first word is never checked (`Bot.DispatchPrefix`,
`Command.SetConfigExample`).

## Model

| member | source | states |
|---|---|---|
| RustStr.IsWhitespace | src/main.rs:121-122 | definition: `char::is_whitespace`, the Unicode White_Space characters |
| RustStr.StartsWith | src/main.rs:131 | definition: `starts_with` for a literal pattern, the pattern being a prefix |
| RustStr.TrimStart | src/main.rs:121-122 | `trim`'s first half: the result is no longer than the input and does not start with whitespace |
| RustStr.TrimStartSplits | src/main.rs:121-122 | what `trim_start` keeps is a suffix of the input, and what it drops is all whitespace |
| RustStr.TrimEnd | src/main.rs:121-122 | `trim`'s second half: the result does not end with whitespace |
| RustStr.TrimEndSplits | src/main.rs:121-122 | what `trim_end` keeps is a prefix, and what it drops is all whitespace |
| RustStr.Trim | src/main.rs:121-122 | `trim` leaves no whitespace at either end and never lengthens its input |
| RustStr.TrimEmpty | src/main.rs:121-122 | `trim` leaves nothing exactly when the input is all whitespace |
| RustStr.TrimPadded | src/main.rs:121-122 | `trim` of whitespace, a text without outer whitespace, and whitespace gives back exactly that text |
| RustStr.TrimIdempotent | src/main.rs:121-122 | trimming twice is trimming once |
| RustStr.TrimChars | src/main.rs:121-122 | `trim` only removes characters |
| RustStr.TrimStartMatches | src/main.rs:121-122 | `trim_start_matches` leaves a string that no longer starts with the pattern, and changes nothing unless the input starts with it |
| RustStr.TrimStartMatchesRepeat | src/main.rs:121-122 | any number of leading copies of the pattern are all stripped, and the text after them is kept unchanged |
| RustStr.TrimStartMatchesSuffix | src/main.rs:132 | `trim_start_matches` leaves a suffix of its input |
| RustStr.TrimStartMatchesChars | src/main.rs:132 | `trim_start_matches` only removes characters |
| RustStr.Split | src/main.rs:119 | `split(',')` gives one more piece than there are commas, and no piece contains a comma |
| RustStr.SplitJoin | src/main.rs:119 | joining the pieces of `split` with the separator gives back the input |
| RustStr.SplitOnce | src/main.rs:119-120 | with exactly one comma, the two pieces are the text before it and the text after it |
| RustStr.TakeWord | src/main.rs:214 | the longest whitespace-free prefix: a prefix with no whitespace, followed by whitespace or the end |
| RustStr.SplitWhitespace | src/main.rs:214 | every word of `split_whitespace` is non-empty and holds no whitespace |
| RustStr.SplitWhitespaceCons | src/main.rs:214 | a word followed by a space splits off as the first word |
| RustStr.SplitWhitespaceBlank | src/main.rs:214 | an all-whitespace text has no words |
| RustStr.SplitWhitespaceLead | src/main.rs:214 | whitespace, a word, then whitespace or the end: the word comes out first |
| RustStr.SplitWhitespaceOf | src/main.rs:214 | any non-empty whitespace-free words, separated by any non-empty whitespace runs and with any whitespace before and after, split back to exactly those words |
| RustStr.Gaps | src/main.rs:214 | the whitespace runs around the words: one more run than there are words |
| RustStr.GapsSeparators | src/main.rs:214 | the runs are all whitespace, and only the first and last may be empty |
| RustStr.FirstWordSplits | src/main.rs:214 | a text with a word in it is its leading whitespace, its first word and the rest |
| RustStr.GapsSplit | src/main.rs:214 | every text is its words interleaved with its runs; with `SplitWhitespaceOf` this fixes the words of every input, tabs, runs of spaces and outer whitespace included |
| RustStr.SingleSpaces | src/main.rs:214 | specification helper, not in the source: the separators of a text joined by single spaces are valid `split_whitespace` separators |
| RustStr.UnwordsInterleave | src/main.rs:214 | specification helper, not in the source: words joined by single spaces are those words interleaved with `SingleSpaces`, so `Unwords` is one case of `Interleave` |
| RustStr.SplitUnwords | src/main.rs:214 | `split_whitespace` recovers the words of any space-separated text of non-empty whitespace-free words; derived from `SplitWhitespaceOf` |
| Ids.AsI64 | src/main.rs:234-239 | `as i64` keeps the value modulo 2^64, and `as u64` undoes it |
| Ids.AsU64 | src/main.rs:57-61 | `as u64` keeps the value modulo 2^64 |
| Ids.AsI64Injective | src/main.rs:51 | two ids are stored under the same `i64` key exactly when they are equal |
| Ids.AsU64RoundTrip | src/main.rs:57-61 | a stored column read `as u64` and written `as i64` again is unchanged |
| Ids.ToDecimal | src/main.rs:223-227 | specification helper, not in the source: the decimal rendering that `ParseU64RoundTrip` is stated against, a non-empty string of digits |
| Ids.DecimalValueOfToDecimal | src/main.rs:223-227 | specification helper, not in the source: the digits of a number denote that number |
| Ids.ParseU64 | src/main.rs:223-227 | `parse::<u64>` accepts only an optional `+` then digits, and gives their value; well-formed digits fail only when the value is 2^64 or more; `""`, `"+"` and anything starting with `-` fail |
| Ids.ParseU64RoundTrip | src/main.rs:223-227 | every `u64` parses back from its decimal rendering, with or without `+` |
| Ids.ParseU64Overflow | src/main.rs:223-227 | a decimal of 2^64 or more is refused |
| Forms.Field | src/main.rs:121-122 | a form field has no outer whitespace |
| Forms.FieldChars | src/main.rs:121-122 | a field holds only characters of its piece |
| Forms.ParseForm | src/main.rs:118-127 | `parse_form` succeeds exactly when the content holds one comma; both fields are trimmed and comma-free |
| Forms.ParseFormSegments | src/main.rs:119-123 | the name comes from the text before the comma and the age from the text after it |
| Forms.FieldOf | src/main.rs:121-122 | leading labels, then padding, a value and padding: the field is the value |
| Forms.ParseFormOf | src/main.rs:118-127 | a form with any number of labels at the very start of each piece, with or without labels, parses to its two values, empty ones included |
| Forms.ParseFormExampleSpaced | src/main.rs:121-122 | `"Name: Alice, Age: 30"` gives `("Alice", "Age: 30")` |
| Forms.ParseFormExampleUnspaced | src/main.rs:121-122 | `"Name:Alice,Age:30"` gives `("Alice", "30")` |
| Forms.ParseFormExampleBare | src/main.rs:118-127 | `","` gives two empty fields |
| Forms.ParseFormExtraComma | src/main.rs:120 | two or more commas are refused |
| Forms.ParseFormExampleNoComma | src/main.rs:124-126 | no comma is refused |
| Forms.ParseManualForm | src/main.rs:130-141 | a request is returned only for content starting with `Manual:`, and it is non-empty with no outer whitespace |
| Forms.ParseManualFormAccepts | src/main.rs:131-137 | accepted exactly when the content starts with the label and more than whitespace follows the leading labels |
| Forms.ParseManualFormChars | src/main.rs:132 | the request holds only characters of the content |
| Forms.ParseManualFormOf | src/main.rs:130-141 | one or more labels, then a padded request, gives the request, or nothing if it is empty |
| Forms.ParseManualFormExampleSpaced | src/main.rs:130-141 | `"Manual: needs review"` gives `"needs review"` |
| Forms.ParseManualFormExampleRepeated | src/main.rs:132 | `"Manual:Manual: x "` gives `"x"`: every leading label is stripped |
| Forms.ParseManualFormExampleEmpty | src/main.rs:133-137 | the label alone is refused |
| Forms.ParseManualFormExampleUnlabelled | src/main.rs:131 | a lower-case label or a leading space is refused |
| Config.ToRow | src/main.rs:234-239 | the stored row reads back as the configuration it was written from |
| Config.FromRow | src/main.rs:56-62 | definition: the configuration `get` builds, every column read as `i64` and cast `as u64` |
| Config.ToRowFromRow | src/main.rs:57-61 | every stored row is the image of the configuration read from it |
| Config.GetConfig | src/main.rs:46-63 | `get` finds a configuration exactly when the query succeeds and the guild's `i64` key has a row, and that row is the configuration's row |
| Config.Upsert | src/main.rs:230-241 | after `REPLACE INTO`, `get` returns exactly the new configuration, no other guild's lookup changes, and only the guild's key is added |
| Config.UpsertTwice | src/main.rs:230-241 | a second upsert replaces the first outright |
| Actions.OfKind | src/main.rs:211-243 | specification helper, not in the source: the calls of one kind, used to count the replies and writes of `!setconfig`; every call kept has that kind |
| Actions.OfKindAppend | src/main.rs:211-243 | specification helper, not in the source: filtering a concatenation filters each part |
| Command.FirstBadId | src/main.rs:223-227 | the five parses are taken in order: the first failure is reported by its position after parses that all succeeded, and otherwise the five ids are the parsed values |
| Command.IdAt | src/main.rs:223-227 | definition: word 1 sets the registration channel, 2 the manual channel, 3 the admin channel, 4 the admin role and 5 the advanced role |
| Command.ParseIds | src/main.rs:223-227 | word `j` of the command is parsed for the `j`-th id |
| Command.AfterReply | src/main.rs:243-244 | the command's result after its one reply: success exactly when the reply succeeds, and otherwise the reply's error |
| Command.Authorised | src/main.rs:209-210 | definition: the member lookup and the permission lookup succeeded and the member is an administrator |
| Command.ParseSetConfig | src/main.rs:214-227 | wrong arity exactly when there are not six words; otherwise the first unparsable word 1-5 is reported, or all five ids are the words' values |
| Command.ParseSetConfigOf | src/main.rs:214-227 | any command word followed by the decimal ids of a configuration parses to that configuration |
| Command.Execute | src/main.rs:209-244 | the table changes only when the caller is an administrator, the ids parse and the write succeeds, and then by the upsert; a failed member lookup or permission lookup makes no effectful call and fails with that lookup's error, the member lookup checked first; a non-administrator gets the denial and a wrong word count the usage message, each as the only call, with the reply's result; a bad id makes no call and reports its position; with valid ids the row written is the ids cast `as i64`, a failed write ends with `StoreFailed` and no reply, and a successful one is followed by the confirmation and the reply's result |
| Command.ExecuteCalls | src/main.rs:209-244 | on every path a write is attempted exactly when every check passes, at most one reply is sent and always to the command's channel, and success means exactly one reply, which succeeded |
| Command.RunSetConfig | src/main.rs:203-245 | the permission check comes first: a non-administrator's message is never looked at, writes nothing and leaves the table unchanged |
| Command.SetConfigReadBack | src/main.rs:230-241 | after a successful command, `get` returns exactly the parsed ids and other guilds are unaffected |
| Command.SetConfigExampleWords | src/main.rs:214-227 | `1 2 3 4 5` after any command word parses to the ids 1 to 5 |
| Command.SetConfigExample | src/main.rs:203-245 | `!setconfig 1 2 3 4 5` and `!setconfigX 1 2 3 4 5`: a denial for a non-administrator; for an administrator, the row written and the confirmation |
| Worker.Respond | src/main.rs:174-198 | nothing is attempted without a configuration, outside the two channels, or without a parsed form; the registration channel wins over the manual one; no kind of call is attempted twice; the first call is the store or the alert; a row is stored exactly when the store succeeds; the role is granted exactly after a successful store; a reply is always last and goes to the message's channel; the only replies are the error reply, the confirmation and the review acknowledgement, each exactly under its condition, so a failed grant or alert gets no reply |
| Worker.RowFor | src/main.rs:152-154 | definition: the registrations row, with the guild id bound `as i64` and the name and age as parsed |
| Worker.InRegistration | src/main.rs:174-175 | definition: a configuration was found and the message is in its registration channel |
| Worker.InManual | src/main.rs:175-188 | definition: a configuration was found and the message is in its manual channel but not its registration channel, which is tested first |
| Worker.Process | src/main.rs:175-197 | outside the two channels nothing happens, and a form that does not parse in its channel leads to nothing |
| Worker.Step | src/main.rs:173-199 | an unconfigured guild or a failed lookup gives no effect; at most one row is stored; the worker never writes the configuration table |
| Worker.Run | src/main.rs:83-85 | definition: the messages handled one after the other, each one's effects after those of every earlier message |
| Worker.Drain | src/main.rs:82-85 | definition: the whole queue handed to the worker in order, the `i`-th message meeting the outcomes `env(i)` |
| Worker.RunAppend | src/main.rs:83-85 | handling `a + b` handles all of `a`, then all of `b` |
| Worker.DrainSnoc | src/main.rs:83-85 | draining one more message appends that message's effects |
| Worker.DrainSnocLogged | src/main.rs:83-84 | a log that holds the drain of some messages holds the drain of one more once that message's effects are appended |
| Worker.RunSnocLogged | src/main.rs:83-84 | the same for messages handled by any handler, so that the worker's steps need not be unfolded |
| Worker.DrainAppend | src/main.rs:83-85 | the drain is first in, first out: the effects of `a + b` are those of `a`, then those of `b` |
| Worker.DrainOne | src/main.rs:83-85 | a message drained alone is one worker step |
| Worker.DrainUnconfigured | src/main.rs:174 | messages from unconfigured guilds are drained with no effect |
| Worker.DrainStored | src/main.rs:177 | a drain stores no more rows than it has messages |
| Worker.DrainWritesNoConfig | src/main.rs:173-199 | draining never writes the configuration table |
| Worker.ProcessExample | src/main.rs:175-186 | the documented form in the registration channel stores `("Alice", "Age: 30")`, grants the role and confirms |
| Bot.DispatchOf | src/main.rs:93-107 | bot and direct messages are dropped; a message goes to the command exactly when it starts with `!setconfig`; every other guild message is queued unchanged |
| Bot.DispatchPrefix | src/main.rs:99 | anything after the prefix still reaches the command |
| Bot.DispatchForm | src/main.rs:99 | a registration form is queued |
| Bot.Handler.constructor | src/main.rs:253-256 | a handler starts with an empty queue over the tables as found |
| Bot.Handler.Send | src/main.rs:108 | the message joins the back of the queue and nothing else changes |
| Bot.Handler.TryRecv | src/main.rs:83 | the oldest waiting message is taken off the front, or none when the queue is empty |
| Bot.Handler.Work | src/main.rs:84 | one turn of the drain appends that message's effects to the call log and the registrations |
| Bot.Handler.ProcessQueue | src/main.rs:80-86 | the queue ends empty, the configuration table is untouched, and the call log and registrations grow by exactly the drain of the queued messages in order |
| Bot.Handler.HandleSetConfig | src/main.rs:100-102 | the command's table becomes the handler's table and its calls are logged; the queue and registrations are untouched |
| Bot.Handler.Message | src/main.rs:91-114 | a dropped message changes nothing; a command changes only the table and the log; any other message is queued and the whole queue drained, leaving it empty |

## Left out

- Discord and SQLite calls are not performed. Each one is an action value, an
  outcome given as input, or both, as described above. This covers `say`,
  `reply`, `member`, `permissions`, `add_role`, and the `fetch_one` and
  `execute` queries.
- The exact reply texts and the alert's mention formatting are not modelled. Each
  reply is a distinct constant, and the alert carries the channel, the role to
  mention and the request.
- `println!` logging and the error values it prints are not modelled.
- Worker.Outcomes: the role grant fetches the member and then adds the role.
  Both calls are collapsed into one `GrantRole` action with one outcome.
- Config.GetConfig: a column that is NULL or not an integer makes `row.get`
  panic. This is not modelled, because stored rows always hold five integers.
- Bot.Handler.Message: requires room in the queue. When the channel is full,
  `send` would wait for another task to drain it, which needs concurrency. `send`
  fails only when the receiver is closed, and the handler owns the receiver, so
  that error path is not modelled either.
- The async runtime, the mutex around the receiver and concurrent drains by
  parallel events are not modelled. Each event runs to completion in the model.
- `main` is not modelled: the client set-up, the token and the database path.
  Only the queue capacity of 100 is kept.
- Strings are sequences of Unicode scalar values, not UTF-8 bytes. All the
  patterns the code matches are ASCII, so the results are the same.
- The `guild_configs` table is a map keyed by the `i64` guild id. This assumes
  that `guild_id` is the table's primary key, as `REPLACE INTO` needs. The schema
  is not part of the source.
