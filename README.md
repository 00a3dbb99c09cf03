# Like bot: verification-gated request pipeline

A model, in Dafny, of the request lifecycle of a Telegram bot that sends "likes"
to game accounts (`bot.py`). A user sends `/like ind <uid>`; if they belong to
the required channel, the bot stores a verification request with a random
12-character code and replies with a link. Visiting `/verify/<code>` marks the
request verified. A background loop picks up verified, unprocessed requests.
For each one it reads the requester's profile and applies a 24-hour cooldown,
from which VIP users are exempt. If allowed, it calls the like service and records the
time of a successful like. In every case where the service calls return, it sends exactly one report
and marks the request processed. Administrators grant VIP with `/givevip <user_id>`.

The two document collections become plain values:
- the request collection is a `seq<Request>` in natural (insertion) order, a position being a record's identity. Order matters because `find_one` and `update_one` by code act on the first match, and codes are not unique;
- the profile collection is a `map<int, Profile>`, where an absent profile reads as the default (not VIP, never served).

Timestamps and durations are integer microseconds, the resolution and the
exact arithmetic of Python's `datetime`. `timedelta.seconds` is modelled with
Python's normalisation: days are rounded towards minus infinity.

Modules, leaves first:
- `Wrappers`: `Option`.
- `Clock`: time units, the 10-minute link lifetime, the 24-hour cooldown and `timedelta.seconds`.
- `Store`: the documents, profile lookup, `find_one` by code and the pending-request query.
- `RateLimit`: the cooldown decision and the "time left" split shown to the user.
- `Verification`: the verification endpoint as a function on the request collection.
- `Commands`: `str.split()`, the uid argument, the code shape, the fallback player name, and `/like` and `/givevip` as functions on the collections.
- `Dispatch`: one step and one pass of the background loop as functions, with the lemmas about a pass.
- `Bot`: class `LikeBot`, which holds both collections and updates them in place. Each handler method is proved equal to its function above.

The code does not enforce some rules one might expect of such a system; the model follows the code:
- the verification endpoint never reads `expires_at`, so a link works after its 10 minutes (`Verification.ExpiredCodeStillVerifies`);
- codes are not checked for uniqueness. A later request whose code repeats an earlier one's can never be verified (`Verification.ShadowedCodeNeverVerifies`);
- marking a request processed is a plain update, not a check-and-set that reports whether it did anything;
- a zero-like answer gets the message "like failed or daily limit reached", which does not say which of the two happened;
- the time left is printed from `timedelta.seconds`, which drops whole days. With no time elapsed it shows 0h 0m (`RateLimit.NoTimeElapsedShowsZero`).

## Model

| member | source | states |
|---|---|---|
| `Clock.DeltaSeconds` | bot.py:139-140 | `timedelta.seconds` of any duration lies in [0, 86400) |
| `Clock.DeltaSecondsDropsDays` | bot.py:139-140 | the seconds component differs from the duration by whole days plus less than one second |
| `Clock.DeltaSecondsWithinDay` | bot.py:139-140 | for a duration in [0, 1 day) the seconds component is the duration rounded down to whole seconds |
| `Store.ProfileOf` | bot.py:133-135 | a stored profile document is returned as it is; a user without one reads as not VIP and never served |
| `Store.FindCode` | bot.py:39 | finds the first record in natural order carrying the code, or reports that no record carries it |
| `Store.PendingIds` | bot.py:127-128 | the query yields exactly the verified, unprocessed records, each once, in natural order |
| `Store.NoPendingIds` | bot.py:127 | the query is empty exactly when no record is pending |
| `RateLimit.TimeLeft` | bot.py:139-141 | the shown time is at most 23h 59m, whatever the elapsed time |
| `RateLimit.TimeLeftRoundsDown` | bot.py:139-141 | for an elapsed time strictly between 0 and 24h the shown time is the remaining cooldown rounded down to whole minutes |
| `RateLimit.Evaluate` | bot.py:133-141 | a refusal happens only for a non-VIP profile with a `last_used` less than 24h before `now`, and always shows hours ≤ 23 and minutes ≤ 59 |
| `RateLimit.DeniedShowsTimeLeft` | bot.py:139-141 | a refusal after some elapsed time shows the remaining cooldown rounded down to minutes |
| `RateLimit.DeniedWithinCooldown` | bot.py:137-138 | a non-VIP user served less than 24h ago is refused |
| `RateLimit.VipAlwaysAllowed` | bot.py:134-137 | a VIP is never refused |
| `RateLimit.FirstUseAllowed` | bot.py:133-137 | a user never served, or without a profile, is allowed |
| `RateLimit.CooldownBoundary` | bot.py:138 | exactly 24h after the last like is allowed; 1µs earlier a non-VIP is refused |
| `RateLimit.OneHourAgo` | bot.py:138-141 | served an hour ago: refused with 23h 0m shown |
| `RateLimit.NoTimeElapsedShowsZero` | bot.py:139-141 | with zero elapsed time the refusal shows 0h 0m; with `last_used` an hour in the future it shows 1h 0m |
| `Verification.VerifyCode` | bot.py:38-43 | succeeds iff the first record with the code exists and is unverified. It then sets `verified` and `verified_at` of that record and changes nothing else. On failure nothing changes |
| `Verification.VerifySingleUse` | bot.py:39-41 | after a visit to a link, a later visit to the same link fails |
| `Verification.ExpiredCodeStillVerifies` | bot.py:39-41 | an unverified record past `expires_at` is still verified |
| `Verification.ShadowedCodeNeverVerifies` | bot.py:39-41 | a record whose code repeats an earlier record's is never changed by visiting that link |
| `Verification.VerifyFrame` | bot.py:41 | a visit changes at most one record, an unverified one, and only by setting `verified` and `verified_at` |
| `Commands.AsciiSeparatorsExact` | bot.py:64 | among ASCII characters, `Commands.IsSpace` (the separators of `str.split()`) holds exactly for space, `\t`, `\n`, `\r`, `\x0b`, `\x0c` and `\x1c`-`\x1f` |
| `Commands.Split` | bot.py:64 | a string starting with a non-separator starts its first word with that character |
| `Commands.SplitWords` | bot.py:64 | the words are non-empty and separator-free |
| `Commands.SplitKeepsText` | bot.py:64 | the words together hold every non-separator character of the text, in order |
| `Commands.SplitExample` | bot.py:64 | leading, trailing and repeated separators yield no empty words |
| `Commands.ParseUid` | bot.py:63-68 | a uid is found iff the text has at least three words; it is then the third word, `args[2]`, a non-empty separator-free word |
| `Commands.LastFour` | bot.py:72 | `uid[-4:]`: the last four characters, or the whole uid when shorter |
| `Commands.FallbackName` | bot.py:72-74 | `Player-` followed by the uid's last four characters (all of them when shorter) |
| `Commands.ValidCodeIsPlain` | bot.py:53-54 | a code of the generated shape (`Commands.ValidCode`: 12 characters from `string.ascii_letters + string.digits`) contains no separator, `/` or `?` |
| `Commands.PlayerName` | bot.py:70-74 | the service's `name` when present, otherwise the fallback name, also when the call failed |
| `Commands.Like` | bot.py:57-87 | no request without channel membership, with fewer than three words, or when the shortener fails; the replies are the join-channel prompt, the usage hint and no reply (the shortener's exception is not caught), in that order of checks. Otherwise exactly one record is appended: the requester, `args[2]`, the code, unverified, unprocessed, expiring 10 minutes after `now`, with the chat and message ids. The reply link is the shortened URL or the raw verify URL |
| `Commands.CreatedRequestWaitsForVerification` | bot.py:79-87 | a new request is not pending: the background loop ignores it until verified |
| `Commands.GiveVip` | bot.py:111-121 | a non-administrator is refused and an administrator without a numeric argument gets the usage hint; only an administrator with a numeric argument changes profiles. The target is upserted with `is_vip` set and its `last_used` kept; every other profile is unchanged |
| `Dispatch.RecordUse` | bot.py:159 | the upsert sets the user's `last_used` to `now`, keeps the VIP flag and leaves other users alone |
| `Dispatch.Fulfil` | bot.py:149-180 | success is reported iff the service answered with non-zero `LikesGivenByAPI`, and only then is `last_used` recorded. The success report carries the service's nickname (else `Player-` and the uid's last four characters), its before and after counts (else 0) and the number added. An exception is reported as an error carrying its text. Nothing here is a daily-limit report |
| `Dispatch.Handle` | bot.py:133-180 | the daily-limit report is sent iff the cooldown refuses, and it carries the hours and minutes the cooldown rule computed. Profiles change only with a success report |
| `Dispatch.HandleAllowed` | bot.py:137-180 | when the cooldown allows, the report and the profiles are exactly what the like service's answer for that request dictates |
| `Dispatch.ProcessOne` | bot.py:129-183 | the loop body keeps the number of records and sends exactly one message; its message and profiles are `Dispatch.Handle`'s (`Dispatch.StepMessage`), and its other effects are stated by the `Dispatch.Step*` lemmas below |
| `Dispatch.ProcessAll` | bot.py:128-183 | the loop keeps the number of records and appends exactly one message per request handled, after the earlier ones |
| `Dispatch.Pass` | bot.py:127-183 | a pass keeps the number of records and sends one message per pending request; its effects are stated by the `Dispatch.Pass*` lemmas below |
| `Dispatch.DeniedStepSkipsService` | bot.py:137-147 | a refused request gives the same result whatever the like service would answer, leaves profiles unchanged, gets the daily-limit message with the time left the cooldown rule computed, and is marked processed |
| `Dispatch.StepProfiles` | bot.py:137-159 | profiles change in a step only with a success report, which happens iff the cooldown allows and the service added likes; then exactly the requester's `last_used` becomes `now` |
| `Dispatch.StepRequests` | bot.py:146-183 | a step changes only its own request, and only its `processed` flag |
| `Dispatch.StepRequestAt` | bot.py:146-183 | after a step, a request is marked processed if the step was for it and is unchanged otherwise |
| `Dispatch.StepMessage` | bot.py:129-183 | the message a step sends and the profiles after it are exactly what `Dispatch.Handle` decides for the request, so the report's values (time left, counts, nickname, error text) are those of the messages sent |
| `Dispatch.StepChangeMeansSuccess` | bot.py:137-159 | a step changes a user's profile only if the request is that user's and the step reports a success |
| `Dispatch.StepNotice` | bot.py:142-183 | a step's message replies to its request's command in its chat |
| `Dispatch.ProcessAllRequests` | bot.py:128-183 | after the loop, exactly the handled requests are marked processed and nothing else differs |
| `Dispatch.RequestAfterLoop` | bot.py:128-183 | a single request after the loop is marked processed if and only if its position was handled, and is otherwise unchanged |
| `Dispatch.ProcessAllAddressing` | bot.py:128-183 | the k-th message of the loop replies to the k-th handled request |
| `Dispatch.ProcessAllProfiles` | bot.py:128-183 | during the loop no VIP flag changes, no profile disappears, and a `last_used` either stays or becomes `now` |
| `Dispatch.ProfileChangesOnlyOnSuccess` | bot.py:156-159 | a profile that changed belongs to a user to whom a success was reported |
| `Dispatch.FreshLoopProfileChange` | bot.py:128-183 | for a loop started with no message sent, a changed profile means some handled request of that user got a success report at that position |
| `Dispatch.ServedUserDeniedLaterInPass` | bot.py:133-141 | profiles are re-read per request: after a success for a non-VIP user, that user's later requests in the same pass are refused, and with the pass's single clock reading the message shows 0h 0m |
| `Dispatch.PassMarksPending` | bot.py:127-183 | after a pass every request pending before it is processed and every other request is unchanged |
| `Dispatch.PassNotices` | bot.py:127-183 | a pass sends one message per pending request, in query order, each replying to that request's command |
| `Dispatch.SecondPassIsQuiet` | bot.py:126-128 | nothing is pending after a pass, so an immediate second pass sends nothing and changes nothing |
| `Dispatch.PassProfiles` | bot.py:127-183 | a pass never changes a VIP flag and moves `last_used` only to `now` |
| `Dispatch.PassProfileChangeMeansSuccess` | bot.py:127-183 | a pass changes a user's profile only if it sent that user a success report |
| `Dispatch.FreshUserIsServed` | bot.py:149-175 | a first request with 5 likes before, 1 added and 6 after is reported with those counts and sets `last_used` |
| `Dispatch.RecentUserIsDeferred` | bot.py:137-147 | a non-VIP served an hour ago gets 23h 0m and an unchanged profile |
| `Dispatch.ServiceFailureIsReported` | bot.py:176-183 | a failing service call is reported with its reason, leaves the profile alone and still marks the request processed |
| `Bot.LikeBot.constructor` | bot.py:30-33 | the bot starts with the collections as stored by earlier runs (empty on a first start) and a fixed set of administrators |
| `Bot.LikeBot.Verify` | bot.py:38-43 | the endpoint updates the request collection as `Verification.VerifyCode` says and leaves profiles alone |
| `Bot.LikeBot.Like` | bot.py:57-87 | the command updates the request collection as `Commands.Like` says and leaves profiles alone |
| `Bot.LikeBot.GiveVip` | bot.py:111-121 | the command updates profiles as `Commands.GiveVip` says and leaves requests alone |
| `Bot.LikeBot.Serve` | bot.py:129-159 | the loop body decides and updates profiles as `Dispatch.Handle` says |
| `Bot.LikeBot.ProcessVerifiedLikes` | bot.py:125-183 | the in-place loop leaves both collections, and sends the messages, exactly as `Dispatch.Pass` computes |
| `Bot.GrantLiftsCooldown` | bot.py:121-137 | after an administrator's grant the target is allowed at once, though served a minute ago, and keeps its `last_used` |

## Left out

- Telegram I/O is not modelled: message texts, Markdown, the inline keyboard, `reply_text` and `send_message`. A report is a `Message` tag with its values. A failing `send_message` would end the background task; that is not modelled.
- The Flask server and its thread are not modelled; only the verification handler's logic is.
- The MongoDB client is not modelled. BSON keeps datetimes to the millisecond; the model keeps microseconds.
- The model runs the handlers and the pass one at a time. It leaves out their interleaving, and a document updated between the query and its handling.
- The shortener and like-service calls (bot.py:77, bot.py:150) carry no timeout; only the player-info call has one (bot.py:71). A call that never returns stalls the command, or the whole background loop and, as the call blocks inside a coroutine, the command handlers too. The model takes every call as returning, so `Dispatch.PassMarksPending` and `Dispatch.PassNotices` describe a pass whose calls all return.
- The player-info, shortener and like-service HTTP calls are inputs (`NameLookup`, `LinkLookup`, `api`). JSON fields are taken as integers and strings.
- The channel-membership check is a boolean input to `/like`; its Telegram call and the fail-closed `except` are not modelled.
- `random.choices` is replaced by a code parameter of the generated shape. Codes are not unique in the source either.
- `int(context.args[0])` in `/givevip` is an `Option<int>` input: `None` when the argument is missing or not a number. Python's integer syntax is not modelled.
- The endless loop, `asyncio.sleep(5)` and the thread start-up are not modelled; the model is one pass.
- Clock reads are not modelled. One `now` is used per handler and per pass, so the two `utcnow()` calls of the cooldown branch share a value, and time does not advance between the requests of a pass. As a consequence, a non-VIP user served earlier in the same pass is refused later in that pass with zero elapsed time, so the model reports `DailyLimit(0, 0)` (`RateLimit.NoTimeElapsedShowsZero` with `last = now`, carried forward by `Dispatch.StaysServed`). In the running bot the clock moves between iterations and the stored `last_used` is truncated to milliseconds, so it would report 23h 59m instead.
- Environment loading (`BOT_TOKEN`, URLs, `ADMIN_IDS` parsing) is not modelled; the administrators are a set given to the constructor and the verify server's address is a parameter.
- The success message's printed timestamp (`strftime`) is not modelled.
- Commands.Split: the contract does not state that each word is a maximal run of non-separators. `SplitExample` shows it on one input only.
