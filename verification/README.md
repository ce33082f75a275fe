# Pool filter of the DeFi pools Telegram bot

A Dafny model of the two pieces of sequential logic in `bot.py`, a Telegram bot
that lists DeFi Llama yield pools:

- `filter_pools`: given the fetched pool records and a user id, keep the pools the
  user's filter record admits, in their original order. A pool is dropped when the
  user's token type is "SOL" (also the default when the key is absent) and its
  symbol does not contain "SOL", or when a minimum volume is set and the pool's
  `tvlUsd` is below it. The `duration` key is accepted but has no effect.
- The settings half of `handle_message`: the bot keeps `USER_FILTERS`, a map from
  user id to a partial record with optional `min_volume`, `token_type` and
  `duration`. Each plain text a user sends first creates their empty record if
  missing, then is read, in this order, as a minimum volume (all digits), a
  token type (SOL, USDC or BTC in any case, stored upper-cased) or a duration
  (ends in "h", stored verbatim); any other text stores nothing.

Modules: `Dict` (a dictionary key that is absent or present), `Text` (digit test,
decimal value, upper-casing, substring and suffix tests), `Pools` (pool and filter
records, `FilterPools`), `Settings` (`HandleMessage`), `Bot` (the `/pools` reply
and how settings messages change what a user is shown).

A notable consequence the model proves: the three readings of a text never
overlap (no all-digit text names a token type or ends in "h", and no token type
ends in "h"), so the order in which `handle_message` tests them decides nothing; each setting is made
exactly when its own test passes (`Settings.Classify`, `Settings.ClassesAreDisjoint`).
Another: a token type other than SOL switches the symbol check off entirely, so
USDC and BTC filter identically and show every pool when no minimum is set.

## Model

| member | source | states |
|---|---|---|
| `Text.DecimalValue` | bot.py:112 | the number `float(text)` gives for an all-digit text is below 10 to the power of the text's length |
| `Text.DecimalValueOfString` | bot.py:112 | reading back the shortest decimal spelling of any natural number gives that number |
| `Text.DecimalStringOfValue` | bot.py:111-112 | a digit string without a leading zero is exactly the shortest spelling of its value |
| `Text.IsAllDigits` | bot.py:111 | `isdigit` holds exactly for a non-empty text every character of which is a digit 0-9 |
| `Text.ToUpper` | bot.py:114 | upper-casing keeps the length, maps each character to its upper-case form and leaves no lower-case letter |
| `Text.ToUpperIdempotent` | bot.py:114-115 | upper-casing an already upper-cased text changes nothing |
| `Text.UpperMatchesIff` | bot.py:114 | a text upper-cases to an upper-case word exactly when each of its characters is that word's letter in either case |
| `Text.Contains` | bot.py:48 | the substring test `"SOL" in symbol` is true exactly when the pattern occurs at some position of the symbol |
| `Text.EndsWith` | bot.py:117 | `endswith` is true exactly when the text is some prefix followed by the suffix |
| `Pools.FiltersOf` | bot.py:44 | a user with a record gets that record; a user without one gets the empty record `{}`, under which the SOL symbol check applies and no minimum volume is set |
| `Pools.TokenTypeOf` | bot.py:48 | `.get("token_type", "SOL")` yields the stored token type when there is one, and reads "SOL" exactly when the symbol check is in force (token type absent or SOL) |
| `Pools.FilterWith` | bot.py:45-57 | every kept pool passes the token-type and minimum-volume checks, and every pool passing both is kept as often as it occurs in the input, no pool more |
| `Pools.FilterPools` | bot.py:43-58 | a pool is returned exactly when it is an input pool the user's record admits; a user without a record sees only symbols containing SOL; with a minimum volume every returned TVL reaches it |
| `Pools.FilterIsSubsequence` | bot.py:45-58 | the output is a subsequence of the input: strictly increasing input positions hold the output pools in order |
| `Pools.DurationIsIgnored` | bot.py:53-56 | the presence or value of the duration key never changes the result |
| `Pools.OtherTokenTypesAgree` | bot.py:48 | all token types other than SOL filter identically, so the symbol is never examined for them |
| `Pools.OtherTokenTypeWithoutMinimumKeepsAll` | bot.py:48-52 | with a token type other than SOL and no minimum volume every pool is returned |
| `Pools.NoMinimumIgnoresTvl` | bot.py:51-52 | without a minimum volume, replacing every pool's TVL leaves the returned symbols, in order, unchanged |
| `Settings.Classify` | bot.py:111-121 | a text is read as a minimum volume exactly when it is all digits, as a token type exactly when its upper-case form is SOL, USDC or BTC, as a duration exactly when it ends in "h", otherwise as unknown |
| `Settings.ClassesAreDisjoint` | bot.py:111-117 | no text passes two of the digit, token-type and trailing-"h" tests |
| `Settings.Apply` | bot.py:111-121 | storing a reading changes at most the key it names: the decimal value as `min_volume`, the upper-cased name as `token_type`, the raw text as `duration`, nothing for an unknown text |
| `Settings.HandleMessage` | bot.py:102-121 | the sender gains an entry, empty (`{}`) when it is new and the text is unrecognised; no other user's record changes; at most the key the reply names changes, and that key gets the decimal value, the upper-cased token type or the raw text |
| `Settings.NumberSetsMinVolume` | bot.py:111-113 | sending the decimal spelling of n sets the minimum volume to n and confirms the text |
| `Settings.TokenTypeIsCaseInsensitive` | bot.py:114-116 | a text sets token type t exactly when it spells t in any mix of cases, and t is stored in upper case |
| `Settings.TrailingHSetsDuration` | bot.py:117-119 | any text ending in "h" is stored verbatim as the duration |
| `Settings.HandleMessageIdempotent` | bot.py:107-121 | sending the same text twice has the effect of sending it once |
| `Settings.DifferentUsersCommute` | bot.py:107-119 | messages from two different users give the same filter map in either order |
| `Settings.HandleAll` | bot.py:107-108 | after a run of messages exactly the senders have gained an entry and every other user keeps their record |
| `Bot.PoolsCommand` | bot.py:86-99 | a failed or empty fetch gives the failure reply; otherwise the user gets either the no-match reply, when no fetched pool is admitted, or a non-empty list holding each admitted fetched pool exactly as often as it was fetched, in fetch order |
| `Bot.OtherUsersUnaffected` | bot.py:107-119 | one user's message never changes the pools another user is shown |
| `Bot.UnknownAndDurationTextsUnobservable` | bot.py:107-121 | an unrecognised text (which may create an empty entry) or a duration text never changes the pools the sender is shown |
| `Bot.MinVolumeMessageBoundsTvl` | bot.py:111-112 | after sending the digits of n, every pool the user is shown has a TVL of at least n |
| `Bot.OtherTokenTypeShowsEverything` | bot.py:114-115 | after naming USDC or BTC without a minimum volume, the user is shown every pool |
| `Bot.SolTokenTypeRequiresSol` | bot.py:48 | after naming SOL in any case, every pool the user is shown has a symbol containing SOL |

## Left out

- `get_pools` (bot.py:29-40): the HTTP call to the DeFi Llama API; its result is a parameter of `Bot.PoolsCommand` (`Bot.Fetch`, with `FetchError` for a failed request).
- Telegram plumbing: the reply keyboard, the command handlers that only send prompts (`start`, `set_min_volume`, `set_token_type`, `set_duration`), handler registration and polling in `main`, and async execution. `show_filters` only displays the record `Pools.FiltersOf` returns.
- Reply wording: replies are modelled by which setting they confirm (`Settings.Reply`, `Bot.PoolsReply`); the listing text built in `pools` is formatting only and is built from the filtered list.
- Environment, token loading and logging (bot.py:9-17). Line 13 calls `load_dotenv` without importing it; this start-up path is outside the model.
- Pool records are taken to carry a string `symbol` and a numeric `tvlUsd`; a missing key or a null TVL (a Python exception) is not modelled.
- `Text.DecimalValue`: `float(text)` is modelled as the exact decimal value; rounding of very long digit strings to a double is not modelled, and TVL values are reals rather than doubles (no NaN or infinity).
- `Text.IsAllDigits`: only ASCII 0-9 count as digits; Python's `isdigit` also accepts other Unicode digits (some of which `float` then rejects).
- `Text.ToUpper`: only ASCII letters are upper-cased; Python's full Unicode mapping (under which, for example, the long s "ſ" upper-cases to "S", so "ſol" would also name SOL) is not modelled.
- `create_table.py`: it only issues a `CREATE TABLE` statement to an external Postgres database and has no logic to model.
