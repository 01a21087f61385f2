# swapgems-2, modelled in Dafny

swapgems-2 is a Telegram bot with a Mini App for posting currency-exchange
ads in a group. This project models the bot's sequential core and proves
properties of the model:

- **Init-data validation** (`InitData`, with `Hex` and `LexOrder`).
  `validate` checks its arguments and takes the decoded `key=value` pairs.
  It drops `hash` and, unless `ignore_age` is set, checks that `auth_date` is at most thirty minutes old.
  It then builds the data-check-string (the sorted `key=value` lines, trimmed),
  signs it with HMAC-SHA256 under a key derived from `"WebAppData"`, and
  compares the result with `hash`. Finally it converts the `user` record.
- **Callback tokens** (`Commands`). `del:<id>`, `edit:<id>` and
  `repost:<id>`, rendered by `Display` and read back by `parse`.
- **Set stores** (`Redis`, `Store`, `SwappyUsers`).
  - Redis is a class holding a map from key to set of byte strings.
  - Star grants store the SHA-256 of `be8(giver) ‖ be8(receiver) ‖ salt` in
    `"{group}:{user}:stars"`.
  - Ad ownership stores message ids in `"{group}:{user}:ads"`.
  - A `SwappyUser` takes its group id from the configuration exactly once,
    when it is made.
- **Update routing** (`Filters`, `Tree`). The dispatch tree is a data
  value, and `Run` interprets it: ordered branches, where the first match
  wins. Beside it sit the two message predicates.
- **The ad form** (`Forms`).
  - The url-encoded pairs become a map of value lists. The pairs are popped
    from the end and empty values are skipped.
  - The fields are taken out of that map, and the rate rule is checked.
  - The ad text is rendered by `methods`, `summary` and `Display`.
- **The posting workflow** (`Posting`). The ownership guard on edits, the
  post or edit, recording the author, deleting the old report, and the
  report keyboard.

`RustStd`, `Decimal` and `Wrappers` model the Rust library behaviour the
core depends on:
- integer widths;
- `trim` over Unicode `White_Space`;
- `split_once` and `join`;
- integer `Display` and `FromStr`, which accept a `+` sign and leading zeros;
- UTF-8 of ASCII text;
- `Option` and `Result`.

Library code that the model cannot see is passed in as a function
argument:
- HMAC-SHA256 and SHA-256;
- `serde_urlencoded` and `serde_json`;
- teloxide's `BotCommands` parsers;
- `has_shared_users`.

The clock is a `now` argument. A Redis failure is modelled by the store
being offline: every command then fails and changes nothing. Bot API
calls are recorded in a returned trace, and their replies are an input. A
panic in the source is an explicit `Panicked` outcome tagged with its site.

## Model

| member | source | states |
|---|---|---|
| InitData.FromWebAppUser | src/site/init_data.rs:102-115 | the user keeps the record's id, names, username and language; `is_bot` and `added_to_attachment_menu` are false; `is_premium` is true exactly when the record says `Some(true)` |
| InitData.UserParsedSuccessfully | src/site/init_data.rs:124-140 | the test's record converts to the test's expected user |
| InitData.ToMapHasEveryKey | src/site/init_data.rs:32-36 | every decoded key is in the `HashMap` |
| InitData.ToMapLastWins | src/site/init_data.rs:32-36 | a key's value in the `HashMap` is the value of its last occurrence |
| InitData.ToMapKeys | src/site/init_data.rs:32-36 | a key is in the `HashMap` exactly when some decoded pair has it |
| InitData.PairOrderIrrelevant | src/site/init_data.rs:32-36 | with distinct keys, the order of the pairs does not change the map |
| InitData.SortedKeys | src/site/init_data.rs:62-63 | the sorted keys are strictly ascending and are exactly the map's keys |
| InitData.CollectSortedKeys | src/site/init_data.rs:62-63 | collecting the keys in any enumeration order and sorting them gives the one sorted key list |
| InitData.WriteLines | src/site/init_data.rs:65-71 | the loop writes `key=value\n` for each key, in order |
| InitData.StaleMeansOlderThanThirtyMinutes | src/site/init_data.rs:54-56 | the `SystemTime` comparison means strictly more than 1800 s, counted in nanoseconds, between `auth_date` and now |
| InitData.Validate | src/site/init_data.rs:26-89 | the imperative `validate` (key removal, sort, write loop, HMAC, compare, `user`) has exactly the outcome of the step-by-step definition |
| InitData.Validation | src/site/init_data.rs:26-89 | the step-by-step outcome of `validate`; its cases are stated by BadArgsExactly, BadDataExactly, MissingHash, MissingAuthDate, FreshExactly, TooOldExactly, IgnoreAgeNeverReadsClock, HashMismatchExactly, SignedFreshAccepted and AcceptedOnlyIfSigned |
| InitData.BadArgsExactly | src/site/init_data.rs:29 | `BadArgs` exactly when `data` or `token` is empty |
| InitData.BadDataExactly | src/site/init_data.rs:32-36 | `BadData` exactly when the arguments are non-empty and decoding fails |
| InitData.MissingHash | src/site/init_data.rs:39-42 | without a `hash` field the result is `WTF` |
| InitData.MissingAuthDate | src/site/init_data.rs:45-52 | with the age check on, a missing or non-`u64` `auth_date` gives `WTF` |
| InitData.FreshExactly | src/site/init_data.rs:45-59 | the age check passes exactly when `auth_date` is a `u64`, the clock does not underflow and the data is not stale |
| InitData.TooOldExactly | src/site/init_data.rs:45-59 | with the age check on, `TooOld` exactly when stale, whatever the signature |
| InitData.IgnoreAgeNeverReadsClock | src/site/init_data.rs:45 | with `ignore_age` the outcome does not depend on the clock and is never `TooOld` or a clock panic |
| InitData.HashMismatchExactly | src/site/init_data.rs:73-84 | past the age check with a hex `hash`, `HashMismatch` exactly when HMAC(HMAC("WebAppData", token), dcs) differs from the decoded hash |
| InitData.SignedFreshAccepted | src/site/init_data.rs:73-88 | a fresh, correctly signed payload with a valid `user` yields that user |
| InitData.AcceptedOnlyIfSigned | src/site/init_data.rs:26-89 | an accepted payload had non-empty arguments, decoded, passed the age check, carried the right signature, and the user is its converted `user` |
| InitData.ConcatAppend | src/site/init_data.rs:66-71 | the written text of two key lists is the concatenation of their texts |
| InitData.DataCheckString | src/site/init_data.rs:61-79 | the trimmed sorted `key=value` lines; stated by EveryFieldSigned, ConcatIsJoin, TrimFinalNewline and DataCheckStringIsJoin |
| InitData.EveryFieldSigned | src/site/init_data.rs:61-71 | every field except `hash` (`auth_date` and `user` included) has its own `key=value` line, at its sorted position, in the written lines before `trim` |
| InitData.ConcatIsJoin | src/site/init_data.rs:65-71 | the written lines are the entries joined by `\n` plus a final `\n` |
| InitData.TrimFinalNewline | src/site/init_data.rs:79 | `trim` removes only the final line end from an unpadded text |
| InitData.DataCheckStringIsJoin | src/site/init_data.rs:61-79 | the signed text is Telegram's entries-joined-by-`\n` whenever that text has no edge whitespace |
| Hex.DecodeEncode | src/site/init_data.rs:82 | `hex::decode` inverts hex encoding |
| Hex.Decode | src/site/init_data.rs:82 | a decoded text is twice as long as its bytes; stated further by DecodeEncode, OddLengthRejected and DecodeIgnoresCase |
| Hex.OddLengthRejected | src/site/init_data.rs:82 | an odd-length hash does not decode |
| Hex.UpperCaseAccepted | src/site/init_data.rs:82 | an example: `"FF0a"`, mixing cases, decodes to bytes 255 and 10 |
| Hex.DecodeIgnoresCase | src/site/init_data.rs:82 | every text decodes exactly as its lower-cased form does, success or failure |
| LexOrder.Sort | src/site/init_data.rs:63 | the sorted keys are strictly ascending, as many as before, the same members |
| LexOrder.SortedUnique | src/site/init_data.rs:62-63 | two strictly sorted lists with the same members are equal, so the sort does not depend on the map's order |
| LexOrder.LessTotal | src/site/init_data.rs:63 | `String`'s order is total on distinct strings |
| Commands.Render | src/bot/commands.rs:38-46 | a token is the verb, `:`, and the decimal id |
| Commands.Parse | src/bot/commands.rs:49-65 | `CallbackQueryCommand::parse`; stated by ParseAccepts, RoundTrip, NoColonNoCommand, UnknownVerb, BadId and SecondColonRejected |
| Commands.RoundTrip | src/bot/commands.rs:38-65 | `parse(c.to_string()) == Some(c)` for every variant and every `i32` |
| Commands.RenderInjective | src/bot/commands.rs:38-46 | distinct commands render to distinct tokens |
| Commands.ParseAccepts | src/bot/commands.rs:49-65 | `parse(s) == Some(c)` exactly when `s` is c's verb, `:`, and text that parses as c's id |
| Commands.NoColonNoCommand | src/bot/commands.rs:50 | a string without `:` is `None` |
| Commands.UnknownVerb | src/bot/commands.rs:59-63 | any verb other than `del`, `edit` or `repost` is `None` |
| Commands.BadId | src/bot/commands.rs:53-57 | an id that is not an `i32` is `None` |
| Commands.SecondColonRejected | src/bot/commands.rs:53 | a further `:` makes the id unreadable |
| Commands.ManySpellings | src/bot/commands.rs:53 | `"del:+007"` parses as `Delete(7)` |
| Decimal.I32RoundTrip | src/bot/commands.rs:53 | the `i32` parser reads back every rendered `i32` |
| Decimal.U32RoundTrip | src/site/form.rs:64 | the `u32` parser of `our-sum` reads back every rendered `u32`, as the summary shows it |
| Decimal.U64RoundTrip | src/site/init_data.rs:49-52 | the `u64` parser of `auth_date` reads back every rendered `u64` |
| Decimal.IntToStringInjective | src/types/swappy_user.rs:38 | distinct integers render differently |
| Decimal.IntToStringHasNoColon | src/types/swappy_user.rs:38-42 | a rendered integer holds no `:` |
| RustStd.SplitOnceAt | src/bot/commands.rs:50 | `split_once` splits at the first occurrence |
| RustStd.TrimIgnoresPadding | src/site/form.rs:143 | whitespace around a text does not change its trimmed form |
| RustStd.JoinEmpty | src/site/form.rs:109 | a join is empty exactly for no names or one empty name |
| Redis.AddMember | src/store.rs:26 | `SADD` adds the member to the key's set and leaves every other key alone |
| Redis.AddMemberIdempotent | src/store.rs:26 | adding twice equals adding once |
| Redis.AddMemberCardinality | src/store.rs:26 | the set grows by one exactly for a new member |
| Redis.Redis.SAdd | src/store.rs:26 | on success the store is `AddMember(old)` and the reply is 0 or 1; on failure nothing changes |
| Redis.Redis.SCard | src/store.rs:15 | the reply is the size of the set, and nothing changes |
| Redis.Redis.SIsMember | src/types/swappy_user.rs:60 | the reply is membership, and nothing changes |
| Store.BigEndianRoundTrip | src/store.rs:36-37 | big-endian bytes read back to the number |
| Store.BE8RoundTrip | src/store.rs:36-37 | `to_be_bytes` of a `u64` is injective |
| Store.Preimage | src/store.rs:35-39 | the hashed bytes are 16 bytes longer than the salt |
| Store.Hash | src/store.rs:30-40 | SHA-256 of the preimage; stated by PreimageInjective and, under `CollisionFree`, NewGiverNewHash |
| Store.PreimageLayout | src/store.rs:35-39 | the bytes split back into giver, receiver and salt |
| Store.PreimageInjective | src/store.rs:36-38 | distinct `(giver, receiver, salt)` give distinct preimages |
| Store.GetStarCount | src/store.rs:9-16 | the count is the size of `"{group}:{user}:stars"`, and nothing changes |
| Store.StarCountKey | src/store.rs:15 | the key `"{group}:{user}:stars"`; stated by StarsKeyIsStarCountKey and GetStarCount |
| Store.GiveStar | src/store.rs:18-28 | only the set at `redis_key` gains the hash; `giver == receiver` is not refused |
| Store.GrantsMembers | src/store.rs:26 | after several grants the set is the old set plus the givers' hashes |
| Store.NewGiverNewHash | src/store.rs:30-40 | when no two of the givers' preimages, the new giver included, collide under SHA-256, a new giver's hash is new |
| Store.HashesCount | src/store.rs:30-40 | when no two of the givers' preimages collide, there are as many hashes as distinct givers |
| Store.StarCountIsDistinctGivers | src/store.rs:18-28 | when no two of the givers' preimages collide, a star count is the number of distinct givers; repeated grants count once |
| SwappyUsers.UserKeySplits | src/types/swappy_user.rs:37-43 | a user key splits at its colons into group, user and kind |
| SwappyUsers.UserKeyInjective | src/types/swappy_user.rs:37-43 | distinct `(group, user, kind)` give distinct keys |
| SwappyUsers.AdsKey | src/types/swappy_user.rs:37-39 | `ads_key`; stated by UserKeySplits, UserKeyInjective and AdsKeyNeverStarsKey |
| SwappyUsers.StarsKey | src/types/swappy_user.rs:41-43 | `stars_key`; stated by UserKeySplits, AdsKeyNeverStarsKey and StarsKeyIsStarCountKey |
| SwappyUsers.AdsKeyNeverStarsKey | src/types/swappy_user.rs:37-43 | no ads key is a stars key |
| SwappyUsers.StarsKeyIsStarCountKey | src/types/swappy_user.rs:41-43 | `stars_key` is the key `get_star_count` reads |
| SwappyUsers.AdMemberInjective | src/types/swappy_user.rs:55-61 | distinct message ids are distinct members |
| SwappyUsers.SetAuthorEffect | src/types/swappy_user.rs:55-61 | after `set_author(m)`, `is_author(m)` holds for that user, and `is_author` for any other user, group or message is unchanged |
| SwappyUsers.SetAuthorKeepsStars | src/types/swappy_user.rs:55-57 | `set_author` changes no star count |
| SwappyUsers.SwappyUser.WithConfig | src/types/swappy_user.rs:18-27 | the group id is the configuration's at creation time |
| SwappyUsers.SwappyUser.StarCount | src/types/swappy_user.rs:51-53 | the size of this user's stars set; nothing changes |
| SwappyUsers.SwappyUser.SetAuthor | src/types/swappy_user.rs:55-57 | on success only this user's ads key gains the id; on failure nothing changes |
| SwappyUsers.SwappyUser.IsAuthor | src/types/swappy_user.rs:59-61 | membership of the id in this user's ads key; nothing changes |
| Filters.AnyHasId | src/bot/filters.rs:8 | true exactly when some member has the id |
| Filters.MeAddedToGroup | src/bot/filters.rs:6-14 | with new members: true iff the bot is among them; otherwise true iff the group was just created |
| Filters.MsgFromMaintainer | src/bot/filters.rs:16-18 | true iff there is a sender and it is the maintainer |
| Tree.FirstOf | src/bot/tree.rs:12-29 | the first branch result that is present, and none before it |
| Tree.Run | src/bot/tree.rs:12-29 | how dptree runs a handler tree; stated by FirstOf and FirstMatchWins |
| Tree.FirstMatchWins | src/bot/tree.rs:12-29 | a branch list's result is that of the first child that handles the update; if none handles it, none does |
| Tree.MessageBranch | src/bot/tree.rs:14-24 | messages try simple command, maintainer command, added to group, shared users, in that order |
| Tree.BuildHandler | src/bot/tree.rs:10-30 | `build_handler`; stated by BuildHandlerRoutes and MessageBranch |
| Tree.BuildHandlerRoutes | src/bot/tree.rs:11-30 | the tree routes every update as the case-by-case definition `Route` says |
| Tree.SimpleCommandFirst | src/bot/tree.rs:15-17 | a recognised simple command goes to `handle_simple_command`, even from the maintainer |
| Tree.MaintainerBranchExactly | src/bot/tree.rs:18-20 | the maintainer endpoint runs iff the message is from the maintainer, is not a simple command and is a maintainer command |
| Tree.CallbackQueriesAlwaysHandled | src/bot/tree.rs:26-28 | every callback query reaches `handle_callback_query` |
| Tree.Unhandled | src/bot/tree.rs:12-29 | other updates, and messages no branch takes, reach no endpoint |
| Forms.CollectIsReversedValues | src/site/form.rs:88-99 | a key is present iff it had a non-empty value, and its list is those values in reverse input order |
| Forms.CollectPairs | src/site/form.rs:88-99 | the pop loop builds that map |
| Forms.FirstOccurrenceWins | src/site/form.rs:89-95 | `pop()` on a gathered list yields the first non-empty value sent |
| Forms.FormFromData | src/site/form.rs:35-70 | removing the fields one by one gives the step-by-step outcome, panics included |
| Forms.TakeRest | src/site/form.rs:51-69 | the optional fields and the `sum` parse |
| Forms.FormFromBytes | src/site/form.rs:83-102 | decode (`De` on failure), gather, extract |
| Forms.ParseForm | src/site/form.rs:80-102 | `Form::try_from`; stated by FormFromBytes, NoRateExactly and AcceptedFields |
| Forms.NoRateExactly | src/site/form.rs:44-49 | with the required fields sent, `Invalid("Не указан курс")` exactly when neither `cb` nor a non-empty `rate` was sent |
| Forms.AcceptedFields | src/site/form.rs:40-69 | an accepted form is made from the pairs: first values for single fields, reversed lists for methods, `buying` iff `"Купить"`, `cb` or a `rate`, `sum` a parsed `u32` |
| Forms.Methods | src/site/form.rs:106-123 | the imperative `methods` returns prefix, joined methods, `, ` and free text, and a line end, or `""` when nothing was appended |
| Forms.MethodsLineEmpty | src/site/form.rs:106-123 | the line is empty exactly when there is no free text and the list is absent, empty or one empty name |
| Forms.SummarySides | src/site/form.rs:151-159 | buying reads `Куплю {sum} {their} за {our}`, selling reads `Продам {sum} {our} за {their}`, and the first word tells which |
| Forms.Summary | src/site/form.rs:151-159 | `summary`; stated by SummarySides |
| Forms.InPartsClause | src/site/form.rs:142 | `Возможно частями\n` appears between the rate line and the methods exactly when `in_parts`; nothing else depends on it |
| Forms.CurrentRateIgnoresRate | src/site/form.rs:127-141 | with `cb` the text says `по текущему курсу` and the rate does not show |
| Forms.CommentPaddingIgnored | src/site/form.rs:143 | the comment is shown trimmed |
| Forms.Display | src/site/form.rs:124-149 | `Display for Form`; stated by InPartsClause, CurrentRateIgnoresRate, CommentPaddingIgnored, SummarySides and MethodsLineEmpty |
| Posting.StarSuffix | src/site/tg.rs:79-80 | `" (<i>⭐️</i>{n})"` exactly when `n > 0`, else empty |
| Posting.AdText | src/site/tg.rs:82-87 | the mention, the star suffix, `:\n\n` and the form; stated by StarSuffix and PostAd |
| Posting.PostCall | src/site/tg.rs:89-97 | an edit of `edit_msg_id` when present, a new message otherwise, in the user's group |
| Posting.PostAd | src/site/tg.rs:72-98 | the ad text is the mention, the stars (0 when Redis fails), `:\n\n` and the form |
| Posting.ReportKeyboard | src/site/tg.rs:115-124 | building the row and inserting Edit at 0 gives the fixed layout |
| Posting.ReportButtons | src/site/tg.rs:110-124 | the report keyboard; stated by ReportLayout and ReportKeyboard |
| Posting.ReportLayout | src/site/tg.rs:110-124 | one row whose last button is Delete with data parsing back to `Delete(id)`; an Edit web-app button with query `edit={id}` at 0 exactly when `keeping` |
| Posting.HandleShit | src/site/tg.rs:14-70 | the ownership guard (403 or 500, nothing posted, store unchanged), the post, recording the author before the report, deleting the old report only after an authorised edit, and the final result |

## Left out

- Cryptography: HMAC-SHA256 and SHA-256 are function arguments. No digest is modelled.
- Decoders: `serde_urlencoded` (init data and the form) and `serde_json` (`user`) are function arguments. Their error values are dropped, so `BadData` and `De` carry no payload.
- `FormParseError::ParseFloat` is never produced by the code and is not modelled.
- `BotCommands`: the macro-generated parsers for `SimpleCommand` and `MaintainerCommand` are given functions in the router's context.
- Tree.Context: src/bot/tree.rs:23 refers to `has_shared_users` and `handle_shared_users`. Neither is defined in src/bot/handlers.rs or src/bot/filters.rs, the modules tree.rs imports with `*` at lines 6 and 8, so the predicate is a given function.
- Endpoints: the message handlers in src/bot/handlers.rs (sending, editing, deleting, reply texts, keyboards, a `todo!`) are I/O and are not modelled.
- HTTP: the endpoint in src/site/handlers.rs and its CORS headers are not modelled. It calls `handle_shit` with three arguments, while src/site/tg.rs:14-19 declares four, so the code does not build.
- Posting.PostParams: src/site/tg.rs:10 imports `PostParams` from src/site/handlers.rs, which does not declare it. Its fields `edit_id`, `report_id` and `keeping` are inferred from their uses in src/site/tg.rs.
- Posting.HandleShit: the bot calls are recorded as a trace and their replies are inputs, and the reply to deleting the old report is not an input because the code only logs it. The mention `SwappyUser`'s `Display` renders (user URL and trimmed full name, src/types/swappy_user.rs:64-71) is a given string. `make_ad_kb` (src/site/tg.rs:131-146) is never called and is not modelled.
- SwappyUsers.SwappyUser: `is_group_member` is a Bot API query and is not modelled. The connection obtained in `with_config` is the `Redis` object it is given.
- SwappyUsers.SwappyUser.WithConfig: `get_multiplexed_async_connection().await.unwrap()` (src/types/swappy_user.rs:24) panics when Redis cannot be reached, before any command runs. The constructor always succeeds, so that panic is not modelled; `online == false` stands for commands failing on a connection that was obtained.
- The atomic `group_id` with `Relaxed` loads and stores (src/types.rs) is a concurrency concern: only the per-user snapshot is modelled.
- Redis: connections and network failure are a single `online` flag. A whole request sees one state, and interleaved writers are not modelled.
- Store.StarCountIsDistinctGivers, Store.HashesCount, Store.NewGiverNewHash: hold under the stated assumption `CollisionFree`, that no two of the finitely many preimages actually hashed collide under SHA-256. This is an idealisation: every function to 32 bytes has collisions somewhere, and none is known for SHA-256.
- Store.Hash: determinism (the `hash_is_same` test) holds because `Hash` is a function, so there is no separate lemma for it.
- Startup and wiring: src/main.rs, src/site.rs, src/lib.rs, src/bot.rs and src/types/swappy_bot.rs hold no modelled logic.
- Time: `SystemTime::now()` is the `now` argument, with seconds and nanoseconds since the epoch. A `now` before `auth_date` by more than the clock's range is modelled as the panic of `SystemTime - Duration`.
- Strings: all strings are `seq<char>`. Byte length is compared in `methods`, in the `value.len() > 0` test of src/site/form.rs:91 and in `hex::decode`'s odd-length check. Counting characters instead of bytes gives the same outcome in each. The first two ask only whether a text is longer than another it extends, or non-empty, which both counts answer alike. The third differs only on a text with a non-ASCII character, which fails to decode either way, and every failure of `hex::decode` at src/site/init_data.rs:82 is the same `unwrap` panic.
