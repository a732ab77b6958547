# Keyword-pin chat bot, modelled in Dafny

The bot watches supergroups. When a member who is not a group administrator
posts a message and their profile biography contains the group's keyword,
ignoring case, the bot pins the message. Each (chat, user) pair may be
pinned at most once every 12 hours. Group administrators set the keyword. A
separate, bot-wide list of bot admins may broadcast to groups and manage
that list.

The model keeps the bot's three process-wide stores as fields of one class,
`Bot.BotState`:

- `keywords` is `group_required_keywords`, mapping a chat to its keyword.
- `lastPin` is `last_pin_time`, mapping (chat, user) to the time of the last successful pin.
- `botAdmins` is `bot_admin_ids`.

Two more fields make the source's behaviour explicit:

- `pinOrder` lists the keys of `lastPin` in insertion order. A Python
  dictionary iterates its keys in that order, and broadcast walks them.
- The ghost `pinLog` records every successful pin. The class invariant
  `Valid()` uses it to state that any two recorded pins of the same pair are
  at least 12 hours apart. Every handler preserves that invariant.

Each handler is one method of the class. Every answer from the chat platform
is a parameter: the member's status string, the biography (`None` when
absent), whether the pin succeeds, whether each broadcast send succeeds, and
the current time in whole seconds.

The pure decisions live in their own modules, which the methods are proved
against:

- `Pinning`: the guard chain of the message handler, the keyword match and
  the cooldown.
- `Broadcasting`: the walk over the cooldown keys with its `sent_to` set.
- `Text`: the string operations `strip`, `lower`, `in`, `int()`, `str()` and
  `" ".join`.

`Scenarios` holds client code that calls the handlers and asserts the
outcomes that follow from their contracts alone.

Notes on the source's behaviour:

- Only chats of type `"supergroup"` are considered (app.py:151). Ordinary
  groups are not.
- An empty keyword counts as "not set" (app.py:159).
- A failing `get_chat_member` or `get_chat` is not caught in the source. The
  handler aborts before it changes any store, so nothing is modelled for it.

## Model

| member | source | states |
|---|---|---|
| `Bot.BotState.constructor` | app.py:12-14 | At start-up the keyword map, the cooldown map and its key order are empty. The bot-admin set is exactly the seeded id 5888830421 (app.py:184). The invariant holds. |
| `Bot.BotState.SetKeyword` | app.py:27-42 | A caller whose status is not administrator/creator is refused. A call without arguments gets the usage reply. In both cases the keyword map is unchanged. Otherwise the map becomes the old map with `chat ↦ strip(args[0])`, and every other chat's entry is unchanged. |
| `Bot.BotState.AdminPanel` | app.py:45-62 | Only a group admin gets the panel. The panel shows the stored keyword, or `"<not set>"` when there is none. Its "pinned users" figure is the number of cooldown records across all chats, and this is at least the number of this chat's records. No store changes. |
| `Bot.BotState.HandleCallback` | app.py:65-74 | `viewkeyword` shows the keyword or the sentinel. `setkeyword_prompt` shows the hint. Any other data edits nothing. No store changes. |
| `Bot.BotState.Broadcast` | app.py:77-97 | A caller who is not a bot admin, or a call without arguments, sends nothing. Otherwise the sends are exactly the walk `WalkKeys` over the cooldown keys in insertion order. The message is the arguments joined by spaces. The reported count is the number of chats with a successful send. It equals the number of delivered steps and is at most the number of distinct chat ids among the keys. No store changes. |
| `Bot.BotState.AddAdmin` | app.py:100-115 | The set is unchanged for a caller who is not a bot admin, a missing argument, or an argument that does not parse. Otherwise the set becomes the old set plus the parsed id, and the reply is `Added` even when the id was already present. |
| `Bot.BotState.RemoveAdmin` | app.py:118-136 | The same caller and argument guards apply as for adding. A parsed id that is a member is removed. Any other parsed id leaves the set unchanged and takes the "not a bot admin" branch. No other id is ever removed. |
| `Bot.BotState.ListAdmins` | app.py:139-144 | Only a bot admin gets the list. It has one line per bot admin. Each line parses back to a member, and every member's `str(id)` appears. The order is left open. No store changes. |
| `Bot.BotState.HandleMessage` | app.py:147-178 | The outcome is `PinDecision` on the current keyword and cooldown record. Only `Pinned` changes state: the pair's record is set to `now`, a new key is appended to the iteration order, and the pin is logged. Every other branch leaves all stores unchanged. The 12-hour spacing of logged pins is preserved. |
| `Bot.KeywordOrNotSet` | app.py:51 | Returns the stored keyword of the chat, or `"<not set>"` when the chat has none. |
| `Bot.Enumerate` | app.py:144 | Iterating a set yields every member exactly once. |
| `Pinning.AdminStatuses` | app.py:155 | Of the platform's member statuses, `creator` and `administrator` count as group administrators (`IsGroupAdmin`, also at app.py:32 and 50), and `member`, `restricted`, `left` and `kicked` do not. |
| `Pinning.PinDecision` | app.py:151-171 | The result is `Pinned` exactly when all of these hold and the platform accepts the pin: there is a message, the chat is a supergroup, the sender is not administrator/creator, the keyword is present and non-empty, the keyword matches the biography (or `""`), and the cooldown has elapsed. `PinFailed` is the same with the pin refused. Administrators are never pinned. A pin attempt implies a keyword match and, when a record exists, `now ≥ last + 12 h`. |
| `Pinning.KeywordMatches` | app.py:164 | `keyword.lower() in bio.lower()` holds exactly when some window of the biography equals the keyword, ignoring case. |
| `Pinning.CooldownElapsed` | app.py:168 | A missing record always passes. A passing check with a record implies `now` is later than the record, so a clock at or before the record never passes. |
| `Text.Strip` | app.py:40 | The argument is its leading whitespace, then the result, then only whitespace, using Python's `isspace` set. The result has no whitespace at either end. |
| `Text.StripIdempotent` | app.py:40 | Stripping a stripped keyword changes nothing. |
| `Text.LowerChar` | app.py:164 | The k-th capital `A`..`Z` becomes the k-th small letter `a`..`z`. Every other character is unchanged, and no capital comes out. |
| `Text.Lower` | app.py:164 | Lower-casing keeps the length and lower-cases each character as `LowerChar` does. |
| `Text.LowerIdempotent` | app.py:164 | Lower-casing an already lower-cased string changes nothing. |
| `Text.ContainsAt` | app.py:164 | The left-to-right substring search succeeds exactly when the needle occurs at some index. |
| `Text.ParseInt` | app.py:111 | `int(arg)` succeeds exactly on an optional `+`/`-` followed by one or more digits. A negative result needs a leading `-`. |
| `Text.ParseNormalize` | app.py:111 | For a run of digits `d`, `int("+" + d)` and `int("0" + d)` equal `int(d)`, and `int("-" + d)` is its negation. With `ParseFormat`, an argument made of a sign or leading zeros in front of `str(n)`, for `n ≥ 0`, parses to `n`, or to `-n` after a `-`. |
| `Text.ParseFormat` | app.py:144 | `int(str(n)) == n` for every integer, so each listed id parses back to itself. |
| `Text.FormatInjective` | app.py:144 | Distinct ids are listed as distinct lines. |
| `Text.JoinWords` | app.py:87 | `" ".join(args)` starts with the first argument and ends with the last. A single argument is returned unchanged. |
| `Text.SplitJoin` | app.py:87 | Splitting the joined text at single spaces (`SplitSpaces`, Python's `split(" ")`) gives back the arguments, in order, when no argument contains a space. So the broadcast text is the arguments separated by single spaces. |
| `Text.FormatInt` | app.py:144 | `str(id)` is never empty, and it starts with a digit exactly when the id is not negative. It has no leading zero: it starts with `0` only for the id 0, which is exactly `"0"`, and a negative id is `-` followed by a non-zero digit. With `ParseFormat`, it is the canonical decimal numeral of the id. |
| `Wrappers.Lookup` | app.py:51 | `dict.get(key)` (also at app.py:158 and 166) gives a value exactly when the key is present, and then the stored value. |
| `Broadcasting.WalkKeys` | app.py:88-95 | The walk makes exactly one step per cooldown key. |
| `Broadcasting.WalkSentTo` | app.py:88-95 | A chat ends up in `sent_to` exactly when the send at one of its keys succeeds. |
| `Broadcasting.StepAt` | app.py:89-95 | The step at a key is skipped exactly when an earlier key of the same chat was delivered. Otherwise it is a send attempt, delivered or failed as the platform answers. |
| `Broadcasting.DeliveredOnce` | app.py:90-93 | No chat is delivered to at two keys. |
| `Broadcasting.FailedChatRetried` | app.py:94-95 | After a failed send, the next key with the same chat id is attempted again. |
| `Broadcasting.WalkCount` | app.py:97 | `len(sent_to)` equals the number of delivered steps. It is at most the number of distinct chat ids among the keys, and `sent_to` contains only those chat ids. |
| `Scenarios.VipMatches` | app.py:164 | The keyword `"VIP"` matches the biography `"I am a vip member"`. |

## Left out

- The chat-platform calls are not modelled as code. This covers
  `get_chat_member`, `get_chat`, `pin_chat_message`, `send_message`,
  `reply_text`, `edit_message_text`, `query.answer`, the inline keyboard,
  `ApplicationBuilder`, handler registration and `run_polling`. Their
  results are parameters of the handlers.
- Async scheduling is not modelled. Each handler is one atomic transition,
  and interleavings at `await` points are concurrency.
- Logging and `print` are left out. They produce output only.
- Reading `BOT_TOKEN` from the environment is left out because it is I/O.
- Reply wording and emoji are not modelled. Each reply is a datatype
  constructor naming the branch taken, with the values it shows.
- The `start` handler is left out. It sends a fixed welcome text and
  touches no store.
- `datetime.now()` is replaced by an integer `now` in whole seconds, so
  sub-second differences are not modelled.
- Text.Lower: only ASCII letters are lower-cased. Python's `str.lower()`
  also folds non-ASCII letters.
- Text.ParseInt: accepts only an optional sign followed by ASCII digits.
  Python's `int()` also accepts surrounding whitespace, underscores between
  digits and non-ASCII decimal digits.
- Bot.BotState.ListAdmins: the iteration order of `bot_admin_ids` is
  unspecified in Python. The model leaves it to a nondeterministic choice,
  so no particular order is stated.
- Bot.BotState.AddAdmin: once the id is added, the reply is `Added`. The
  model does not follow the case where that `reply_text` raises inside the
  same `try` and the "Invalid user ID" reply follows instead.
- Bot.BotState.RemoveAdmin: once the id is removed, the reply is `Removed`.
  The model does not follow the case where that `reply_text` raises inside
  the same `try` and the "Invalid user ID" reply follows instead, with the id
  already removed.
- Bot.BotState.Broadcast: the platform's answers come one per cooldown key,
  by position. A reply that fails after the walk is not modelled.
