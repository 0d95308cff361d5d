# wordgames anagram engine, modelled in Dafny

This project models the sequential core of the `wordgames` anagram server:

- the round engine `Anagram` (`src/anagram.rs`): the set of player names, the round status (`Idle` or `Ongoing` with the answer, the scrambled letters, the reward and the deadline), the points ledger, the handle of the timeout task, and the operations `insert_player`, `remove_player`, `ensure_state`, `guess`, `start` and `finalise`;
- the command front end: `CommandHandler` (`src/handlers/command_handler.rs`) recognising `/`-commands and routing them by their first word, `handle_start` (`src/commands/start.rs`) reading the optional round length, and `handle_score` (`src/commands/score.rs`) reading the ledger.

The files:

- `wrappers.dfy`: `Option`.
- `rust_str.dfy` (module `RustStr`): the parts of Rust's string library the commands rely on. `Tokens` is `split_ascii_whitespace`. `ParseU32` is `str::parse::<u32>`. `Decimal` is the decimal rendering of a number.
- `shuffle.dfy` (module `Shuffle`): the swap loop of `chars.shuffle(..)`, both as a function (`Shuffled`) and run in place on an array (`ShuffleInPlace`).
- `anagram.dfy` (module `Anagram`): the datatypes, the pure transition functions `GuessStep` and `StartStep` with the lemmas about them, and the class `Anagram`. Its methods are proved to move the object's state exactly as those functions say. `Broadcast` stands for the broadcast sender `tx`: each `send` appends one `Event` to `Broadcast.sent`.
- `command_handler.dfy` (module `CommandHandler`): `IsValidCommand` and the class `CommandHandler`.
- `commands.dfy` (module `Commands`): `StartDuration`, `HandleStart`, `HandleScore`, `HandleHelp`, and `Run`, which executes a dispatched callback.

Everything outside the program's control becomes a parameter:

- the current instant is an integer `now`;
- the index `choose` draws from the word pool is `pick % |words|`;
- the random draws of the shuffle are a function `draws`. Step `k` of the swap loop exchanges position `k` with `draws(k) % (k + 1)`.

## Where the code and the design description differ

The design description of this system states some rules that the code does not follow. The model follows the code:

- The design calls for a case-insensitive answer check. The code compares with `==` (`src/anagram.rs:68`), so `"APPLE"` does not match `"apple"` (`Anagram.GuessIsCaseSensitive`).
- The design asks that the scrambled word differ from the answer when the answer is longer than 3 letters. The code shuffles once and does not retry (`src/anagram.rs:96-97`), so the shuffled word may equal the answer (`Shuffle.ShuffleMayKeepWord`).
- The design leaves it open whether a wrong guess gets feedback. The code answers every wrong guess during a live round with "keep guessing" (`src/anagram.rs:77-79`).
- The design has the deadline task re-check the round before it announces the end. The code's timeout task sends its "No one has guessed" message unconditionally unless it was aborted, and it never resets the round. Only `ensure_state`, which `guess` and `start` call, drops an overdue round.

## Model

| member | source | states |
|---|---|---|
| `RustStr.LeadingTokenLength` | src/handlers/command_handler.rs:53 | the result is the length of the longest whitespace-free prefix: that prefix has no ASCII whitespace and the next character, if any, is whitespace |
| `RustStr.Tokens` | src/commands/start.rs:6 | every item `split_ascii_whitespace` yields is non-empty and free of ASCII whitespace |
| `RustStr.TokensKeepEveryOtherChar` | src/commands/start.rs:6 | the tokens, concatenated, are exactly the message with its whitespace removed, so tokenising loses nothing else |
| `RustStr.FirstTokenExists` | src/handlers/command_handler.rs:53-57 | a first token exists if and only if the message has a non-whitespace character |
| `RustStr.FirstTokenAtStart` | src/handlers/command_handler.rs:53-54 | a message that does not open with whitespace has as its first token its longest whitespace-free prefix, at least one character long |
| `RustStr.FirstToken` | src/handlers/command_handler.rs:34 | the first word, when there is one, is non-empty and free of ASCII whitespace |
| `RustStr.TokensSkipWhitespace` | src/commands/start.rs:6 | a run of ASCII whitespace in front of a rest yields no token: the tokens are those of the rest |
| `RustStr.TokensOfSeparated` | src/commands/start.rs:6 | a whitespace-free word, a non-empty run of whitespace and a rest tokenise as that word followed by the tokens of the rest; with `TokensSkipWhitespace` and `TokensOfWord` this makes the tokens exactly the maximal whitespace-free runs |
| `RustStr.TokensOfWord` | src/commands/start.rs:6 | a non-empty whitespace-free word is a single token |
| `RustStr.ParseU32` | src/commands/start.rs:7 | a successful u32 parse never exceeds `u32::MAX` |
| `RustStr.DigitsValueOfDecimal` | src/commands/start.rs:7 | reading back the decimal rendering of any number gives that number |
| `RustStr.ParseU32OfDecimal` | src/commands/start.rs:7-10 | every u32 written in decimal parses to itself, also with a leading `+` or a leading zero |
| `RustStr.ParseU32Overflow` | src/commands/start.rs:7 | a decimal number above `u32::MAX` is refused |
| `RustStr.ParseU32RejectsNonDigit` | src/commands/start.rs:7 | a character other than a decimal digit anywhere in the word, apart from one leading `+`, makes the parse fail, and a lone `+` fails too |
| `RustStr.ParseU32RejectsMinus` | src/commands/start.rs:7 | any text starting with `-` is refused by the unsigned parse |
| `Shuffle.Shuffled` | src/anagram.rs:97 | the swap loop's outcome has as many letters as the word |
| `Shuffle.ShuffledIsPermutation` | src/anagram.rs:96-97 | the shuffled letters are the word's letters, each as often (same multiset) |
| `Shuffle.ShuffleMayKeepWord` | src/anagram.rs:96-97 | some draws leave the word unchanged: nothing forces the scramble to differ from the answer |
| `Shuffle.ShuffleInPlace` | src/anagram.rs:97 | the in-place swap loop leaves the buffer holding `Shuffled` of its old contents |
| `Anagram.Scramble` | src/anagram.rs:96-99 | collecting, shuffling and reading back the letters yields `Shuffled(word)`, a rearrangement of the word |
| `Anagram.Expire` | src/anagram.rs:56-63 | `ensure_state` either keeps the status or drops it to `Idle`, and the result is `Ongoing` exactly when the round was live at `now` |
| `Anagram.PointsOf` | src/commands/score.rs:5-9 | a player's points are their ledger entry, or 0 (the `u32` default that `or_insert(0)` and `unwrap_or_default` both use) when they have none |
| `Anagram.Abort` | src/anagram.rs:119-121 | aborting keeps a stored handle present, for the same answer and deadline, and marks it aborted; no handle stays no handle |
| `Anagram.Finalised` | src/anagram.rs:118-123 | finalising leaves the round `Idle`, players and points unchanged, and any stored timer aborted |
| `Anagram.GuessStep` | src/anagram.rs:65-81 | a guess never touches the players, either leaves the whole state unchanged or ends the round, broadcasts at most one message, and never removes a ledger entry |
| `Anagram.StartStep` | src/anagram.rs:83-116 | after `start` a round is always live at `now` (the old one or a new one), players and points are unchanged, and exactly one message is broadcast |
| `Anagram.Credit` | src/anagram.rs:69 | crediting adds the player's key, raises their points (0 if absent) by exactly the amount, and leaves every other player's points alone |
| `Anagram.ExpireExactlyWhenOverdue` | src/anagram.rs:56-63 | a round whose deadline is strictly before `now` is dropped; a round ending exactly at `now` is kept; `Idle` stays `Idle` |
| `Anagram.GuessWithoutLiveRound` | src/anagram.rs:65-67 | a guess with no live round (idle, or past the deadline) changes no points and broadcasts nothing; it only drops the overdue round |
| `Anagram.GuessCorrect` | src/anagram.rs:68-76 | the exact answer in a live round adds exactly the reward to the guesser, leaves everyone else's points and the players unchanged, ends the round, aborts the timer and broadcasts one message with the new total |
| `Anagram.GuessWrong` | src/anagram.rs:77-79 | any other text in a live round leaves the whole state unchanged and broadcasts one "keep guessing" |
| `Anagram.GuessIsCaseSensitive` | src/anagram.rs:68 | `"APPLE"` against the answer `"apple"` is a wrong guess and credits nothing |
| `Anagram.StartWhileLive` | src/anagram.rs:84-93 | `start` during a live round leaves the whole state (round and handle included) unchanged and broadcasts one "please wait" carrying a non-negative time left |
| `Anagram.StartIdempotent` | src/anagram.rs:83-93 | a second `start` while the round is live, with any duration and randomness, leaves the state the first one produced unchanged |
| `Anagram.StartWhenIdle` | src/anagram.rs:95-115 | `start` with no live round opens one: word and reward from the pool, shuffled letters a permutation of the word, deadline `now + duration`, a fresh unaborted timer for that word and deadline, players and points unchanged, one message |
| `Anagram.StartCanDrawAnyWord` | src/anagram.rs:95 | every pool entry can be the drawn answer |
| `Anagram.GuessPreservesConsistent` | src/anagram.rs:65-81 | `guess` keeps the engine invariant: a live round's word and reward are a pool entry, its letters a rearrangement of the word, and the handle its running timer |
| `Anagram.StartPreservesConsistent` | src/anagram.rs:83-116 | `start` keeps the same invariant |
| `Anagram.GuessesAfterFinaliseDoNothing` | src/anagram.rs:118-123 | once the round is `Idle`, any run of guesses, correct or not, changes nothing and broadcasts nothing |
| `Anagram.AtMostOneWinnerPerRound` | src/anagram.rs:65-81 | in any run of guesses against one round at most one guess is credited, and with no round none is |
| `Anagram.ScoreAccumulates` | src/anagram.rs:69 | winning two successive rounds worth `a` and `b` raises the player's points by `a + b` |
| `Anagram.Broadcast.Send` | src/anagram.rs:16 | a send appends exactly that message to what the channel has carried |
| `Anagram.Anagram.constructor` | src/anagram.rs:20-28 | a new engine has no players, no round, no points, no timer and an empty channel |
| `Anagram.Anagram.InsertPlayer` | src/anagram.rs:43-50 | returns true exactly when the name was absent; afterwards the name is present and no other name was added or removed |
| `Anagram.Anagram.RemovePlayer` | src/anagram.rs:52-54 | the name is absent afterwards and every other name is untouched; removing an absent name is a no-op |
| `Anagram.Anagram.EnsureState` | src/anagram.rs:56-63 | the round status becomes `Expire` of the old status; nothing else changes |
| `Anagram.Anagram.Guess` | src/anagram.rs:65-81 | the new state and the messages broadcast are those of `GuessStep`, and the engine invariant holds after |
| `Anagram.Anagram.Start` | src/anagram.rs:83-116 | the new state and the messages broadcast are those of `StartStep`, and the engine invariant holds after |
| `Anagram.Anagram.Finalise` | src/anagram.rs:118-123 | the round becomes `Idle` and a stored timer is marked aborted; players and points are untouched |
| `CommandHandler.IsValidCommand` | src/handlers/command_handler.rs:48-58 | a line is a command exactly when it starts with `/` and its second character exists and is not ASCII whitespace |
| `CommandHandler.SlashLineHasFirstWord` | src/handlers/command_handler.rs:49-57 | a line starting with `/` always has a first word, so the final `false` is reached only by lines without the `/` |
| `CommandHandler.BareSlashIsNoCommand` | src/handlers/command_handler.rs:53-55 | `"/"` alone and `"/ ..."` are not commands |
| `CommandHandler.CommandHandler.constructor` | src/handlers/command_handler.rs:10-13 | a default handler has no callbacks |
| `CommandHandler.CommandHandler.Callback` | src/handlers/command_handler.rs:16-19 | the prefix now maps to the new callback, replacing an earlier one, all other prefixes are kept, and the same handler is returned |
| `CommandHandler.CommandHandler.Handle` | src/handlers/command_handler.rs:21-46 | a non-command is declined and runs nothing; every command is accepted, whether or not a callback is registered, and the callback run is the one registered under exactly (case-sensitively) its first word |
| `Commands.StartDuration` | src/commands/start.rs:5-10 | a duration obtained is a u32 |
| `Commands.StartDurationDefault` | src/commands/start.rs:5-6 | with no second word (nothing, or only whitespace, after the command) the duration is 30 |
| `Commands.StartDurationReadsSecondWord` | src/commands/start.rs:6-10 | whatever runs of whitespace separate the words, the duration is the second word read as a u32, and any words after it are ignored |
| `Commands.StartDurationGiven` | src/commands/start.rs:6-10 | a u32 in decimal as second word, also written with a leading `+` or `0`, is the duration, after any whitespace run and whatever follows it |
| `Commands.StartDurationRefused` | src/commands/start.rs:7-19 | a second word holding a non-digit (letters, `-`, `.`; one leading `+` excepted) or a number above `u32::MAX` is refused |
| `Commands.StartDurationExamples` | src/commands/start.rs:5-19 | `/start abc` and `/start 5s` are refused, `/start<TAB>+07  x` asks for 7 seconds, a bare `/start` for 30 |
| `Commands.HandleStart` | src/commands/start.rs:3-24 | a refused duration leaves the game unchanged and broadcasts one "invalid format" message naming the author; otherwise the game moves as `start` does with the duration read |
| `Commands.HandleScore` | src/commands/score.rs:3-13 | the reply is addressed to the author (it is broadcast to every player) and carries their ledger entry, or 0 when they have none |
| `Commands.ScoreAfterWin` | src/commands/score.rs:5-9 | after a correct guess the score reported is the earlier score plus the round's reward |
| `Commands.Run` | src/handlers/command_handler.rs:36-42 | running a callback: `/score` and `/help` leave the game unchanged and broadcast their one reply; `/start` behaves as `HandleStart` |

## Left out

- `Anagram::new` and `populate_words` (`src/anagram.rs:20-41`) fetch the word pool over HTTP and decode JSON. The model's constructor takes the pool as a given sequence.
- `Anagram::timeout` (`src/anagram.rs:125-129`) is a tokio task that sleeps until the deadline and then announces the answer. The model keeps only the handle, as a `Timer` value recording the answer, the deadline and whether it was aborted. The timer's message never touches the round state.
- Randomness: `choose` and `shuffle` draw from `thread_rng`. Their draws are parameters; the `rand` crate is not part of this model.
- Wall-clock time: each operation reads one integer `now`. The source reads `Instant::now()` separately in `ensure_state` and when it computes the deadline or the time left. The `{:?}` formatting of the time left is not modelled.
- Message texts are abstract `Event` values; the `format!` strings are not modelled.
- `tx.send(..).unwrap()` panics when the channel has no receiver; the model's send always succeeds. Channel capacity and lagging receivers are not modelled.
- Anagram.Credit: points are unbounded naturals. The source stores them as `u32`, and `+=` overflows once a player's total passes `u32::MAX`.
- Anagram.Anagram.Start: requires a non-empty word pool whenever no round is live. With an empty pool the source panics at `choose(..).unwrap()` (`src/anagram.rs:95`); the model does not describe that panic.
- Commands.HandleStart: carries the same non-empty-pool requirement, for the same reason, whenever the duration parses and no round is live.
- Commands.Run: carries the same requirement for `/start`.
- Anagram.Anagram.Start: `Instant + Duration` overflow is not modelled, and rewards and durations are naturals rather than `u32`.
- The `tokio::sync::Mutex` around the engine is not modelled. Each operation is one atomic step, as the lock makes it.
- Callbacks are async closures. Here a callback is named by a `Command`, and `Commands.Run` executes it. Which prefix is registered for which command is decided outside these files and is not part of this model.
- `src/handlers/ws_handlers.rs` and `src/main.rs` (WebSocket upgrade, per-connection tasks, the `@` username check, the chat echo) are connection I/O and concurrency.
- `src/server_message.rs` (serde JSON encoding and timestamps) and `src/app_state.rs` are not part of this model. `/help` is reduced to one abstract event.
