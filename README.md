# Synnabot core, modelled in Dafny

Synnabot is a Discord bot for one community. This project models the parts of it that hold state or make decisions:

- **Stream checker.** A periodic pass (`checkStreams`) reads the Discord-to-Twitch links from the database. It asks Twitch which linked users are live and runs a cleanup sweep over the holders of the "live now" role. It then diffs the live members against the set kept from the previous pass and replaces that set. Finally it grants the role and posts a notification embed for members who went live, and revokes the role from members who went offline. As written, that last step is never reached when someone is newly live: line 213 of `streamChecker.mjs` reads a variable that is not in scope, and the pass throws (see "## Findings"). The model keeps both: `StreamChecker.PassAsWritten` is the pass as the code stands, which never grants the role, and `StreamChecker.Pass`, which `StreamEngine.CheckStreams` runs, is the corrected pass that builds the go-live list the way lines 217-234 do. The interval handle is started and stopped by `startStreamLoop` / `stopStreamLoop`.
- **Twitch client.** An app access token is cached until 5 seconds before it expires. Users are looked up by login. Live streams are looked up by user id, in requests of at most 100 ids; a request that fails is skipped.
- **Moderator commands.** These are `setbirthday`, `settimezone` and `settwitch`. Each passes a role gate ("💥 Mod") and validates its arguments: date ranges, IANA names or `UTC±h[:mm]` offsets, and Twitch logins. It then upserts one record keyed by the Discord id. The project also models the `getLinkedStreamers` fixed-width table, the UTC-offset arithmetic of `getTime` and the 1900-character chunking of `ask` replies.
- **Birthday checker.** An hourly loop wishes members whose birthday is today. It is deduplicated twice: by an in-memory "wished today" set that is cleared at midnight, and by the `lastWished` date stored on each record.
- **Command registry and message handler.** `addCommand` writes into a shared map. The message handler of `index.mjs` filters on the `!` prefix, tokenizes, lower-cases the command name and dispatches.

Modules, one per source file (plus shared helpers):

| file | module | models |
|---|---|---|
| `stream_checker.dfy` | `StreamChecker` | `utils/discord/streamChecker.mjs`: the pass as a class `StreamEngine` (fields `liveSet`, `streamCheckInterval`) whose methods use loops proved against fold functions |
| `stream_properties.dfy` | `StreamProperties` | what a pass guarantees: the diff, convergence, idempotence, the as-written abort |
| `twitch_api.dfy` | `TwitchApi` | `utils/discord/twitchAPI.mjs`: class `TokenCache` (fields `accessToken`, `tokenExpiry`), the batching loop |
| `syn_utils.dfy` | `SynUtils` | `utils/discord/synUtils.mjs`: validators, upserts on a `Database`, the table, the chunking |
| `birthday_checker.dfy` | `BirthdayChecker` | `utils/discord/birthdayChecker.mjs`: class `Checker` (field `wishedToday`) |
| `commands.dfy` | `Commands` | `commands/commands.mjs`: class `Registry` (field `commands`) |
| `dispatch.dfy` | `Dispatch` | `index.mjs` lines 68-84 |
| `schemas.dfy` | `Schemas` | the three Mongo collections as a class `Database` of sequences, with the unique indexes as its invariant |
| `text.dfy`, `sequences.dfy`, `wrappers.dfy` | `Text`, `Sequences`, `Wrappers` | JavaScript string operations (`toLowerCase`, `trim`, `split(/ +/)`, `padEnd`, `repeat`, `replace`, `toString`), `Array.prototype.find`, Option/Result |

Everything outside the bot is a parameter. That covers the database's and Twitch's answers, whether a Discord member, channel, role or guild can be fetched, the clock, and the outcome of each per-member call. JavaScript Sets of member ids are sequences without repeats, in insertion order.

## Model

| member | source | states |
|---|---|---|
| StreamChecker.StreamEngine.constructor | utils/discord/streamChecker.mjs:15-16 | the module starts with an empty live set and no interval handle |
| StreamChecker.StreamEngine.CheckStreams | utils/discord/streamChecker.mjs:18-361 | one pass returns exactly the result of the corrected pass `Pass` (go-live list as at :217-234, not the as-written `PassAsWritten`, which throws at :213) on the previous live set; afterwards the live set is the pass's live set, still without repeats, and the interval handle is untouched |
| StreamChecker.StreamEngine.StartStreamLoop | utils/discord/streamChecker.mjs:363-383 | the loop starts iff client id, client secret and guild id are all set; only then is the handle stored; the period is minutes·60·1000 ms; the live set is untouched |
| StreamChecker.StreamEngine.StopStreamLoop | utils/discord/streamChecker.mjs:385-391 | the handle that was set (if any) is the one cleared, and afterwards no handle is set; the live set is untouched |
| StreamChecker.ResetRoles | utils/discord/streamChecker.mjs:52-74 | the "no links"/"no Twitch users" branch: the loop over all members yields the reset result (strip every holder when the roster was fetched, empty live set) |
| StreamChecker.Sweep | utils/discord/streamChecker.mjs:123-165 | the cleanup loop issues the removals of `SweepActions` in member order and leaves the members of `SweepMembers` |
| StreamChecker.SweepMembers | utils/discord/streamChecker.mjs:129-163 | member j after the sweep is member j before, with the role cleared exactly when the rule strips a holder |
| StreamChecker.ComputeNextLive | utils/discord/streamChecker.mjs:175-201 | the loop over the links builds the live-id set `NextLive` (characterised by `StreamProperties.NextLiveExactly`) |
| StreamChecker.ComputeWentLive | utils/discord/streamChecker.mjs:217-234 | the corrected go-live list: one entry, in `nextLive` order, for each id in `nextLive − previous` whose link and Twitch user are found |
| StreamChecker.ComputeWentOffline | utils/discord/streamChecker.mjs:236-241 | the offline loop finishes iff every id in `previous − nextLive` still has a link (otherwise :239 throws), and then yields exactly `previous − nextLive` |
| StreamChecker.GoLiveLoop | utils/discord/streamChecker.mjs:249-325 | the go-live loop threads actions, members and the live set exactly as the per-entry step folded over the entries |
| StreamChecker.GoOfflineLoop | utils/discord/streamChecker.mjs:327-354 | the go-offline loop threads its state exactly as the per-id step folded over the offline ids |
| StreamChecker.Minus | utils/discord/streamChecker.mjs:209-241 | `x` is in `a − b` iff it is in `a` and not in `b`; a set without repeats stays without repeats |
| StreamChecker.Remove | utils/discord/streamChecker.mjs:318-350 | `Set.delete`: exactly `x` leaves, nothing else changes, and deleting an absent id is a no-op |
| StreamChecker.Logins | utils/discord/streamChecker.mjs:134 | the logins compared by the sweep's exact-case lookup, one per user in order |
| StreamChecker.LoweredLogins | utils/discord/streamChecker.mjs:179-222 | the lower-cased logins compared by the case-insensitive lookups, one per user in order |
| StreamChecker.StreamUserIds | utils/discord/streamChecker.mjs:119 | the `user_id`s of the live streams, one per stream in order |
| StreamChecker.MemberIds | utils/discord/streamChecker.mjs:252-253 | the ids the member fetch can find, one per member in order |
| StreamChecker.LiveEmbed | utils/discord/streamChecker.mjs:270-300 | the embed links to `https://twitch.tv/<login>` and shows the member's avatar; it has exactly one field iff there is no stream info, and an image only when Twitch gave a thumbnail |
| StreamChecker.Pass | utils/discord/streamChecker.mjs:18-361 | the corrected pass never throws at :213; a pass that stops early (no guild, no role, a failed fetch, a missing link at :239) keeps the live set and issues no go-live or go-offline action, and the first three issue nothing at all; a pass that finds no links or no Twitch users empties the live set |
| StreamChecker.PassAsWritten | utils/discord/streamChecker.mjs:209-215 | the pass as written: whenever it does not throw at :213 it equals `Pass`; when it throws, the live set is kept, no go-live or go-offline action is issued, and only the sweep's removals have happened |
| StreamChecker.NextLiveNoDup | utils/discord/streamChecker.mjs:169-198 | `nextLiveDiscordIds` never holds an id twice, as a Set would not |
| StreamChecker.GoLiveKeepsNoDup | utils/discord/streamChecker.mjs:320 | deleting from the live set during go-live keeps it free of repeats |
| StreamChecker.GoOfflineKeepsNoDup | utils/discord/streamChecker.mjs:349 | deleting from the live set during go-offline keeps it free of repeats |
| StreamChecker.PassKeepsNoDup | utils/discord/streamChecker.mjs:244 | every pass leaves a live set without repeats when it started with one |
| StreamProperties.GuildOrRoleMissing | utils/discord/streamChecker.mjs:20-31 | without the guild or the live role: no action at all, members and live set unchanged; the as-written pass behaves identically |
| StreamProperties.NobodyCanBeLive | utils/discord/streamChecker.mjs:52-109 | with zero links or zero resolved users the live set becomes empty and no role is granted; when the roster was fetched, exactly the holders get a removal and nobody keeps the role |
| StreamProperties.SweepActionsExactly | utils/discord/streamChecker.mjs:123-165 | the sweep issues a removal for exactly the holders its rule strips (no link, no exact-case user, or user not live) |
| StreamProperties.LiveNotStripped | utils/discord/streamChecker.mjs:131-198 | under unique links and logins written in Twitch's case, a member who is live is not stripped by the sweep and gets a go-live entry |
| StreamProperties.OfflineStripped | utils/discord/streamChecker.mjs:131-198 | a holder who is not in `nextLive` is always stripped by the sweep |
| StreamProperties.NextLiveExactly | utils/discord/streamChecker.mjs:175-201 | `x` is in `NextLive` (`nextLiveDiscordIds`) iff some link of `x` has a login matching a resolved user case-insensitively and that user's id is among the streams' ids; unresolved links are skipped |
| StreamProperties.EntryIds | utils/discord/streamChecker.mjs:249 | the member ids of the go-live entries, in order |
| StreamProperties.EntriesCover | utils/discord/streamChecker.mjs:217-234 | an id has a go-live entry iff it is newly live and its link and Twitch user are found |
| StreamProperties.GoLiveTrace | utils/discord/streamChecker.mjs:249-325 | go-live keeps the member list, deletes from the live set exactly the entries whose member cannot be fetched, and issues only notifications and grants to entry members (which ones exactly: `GoLiveGrants`, `GoLiveNotifies`) |
| StreamProperties.GoLiveRoles | utils/discord/streamChecker.mjs:253-258 | after go-live, a member holds the role iff it held it before or has a go-live entry |
| StreamProperties.GoLiveStepHolds | utils/discord/streamChecker.mjs:252-258 | one go-live turn (`GoLiveStep`) gives the role to the member it fetches and changes no other member's role or identity |
| StreamProperties.GoLiveStepActions | utils/discord/streamChecker.mjs:252-317 | one go-live turn (`GoLiveStep`) adds the role iff its member is fetched without it, sends exactly that member's notifications, and removes nothing |
| StreamProperties.GoLiveHolds | utils/discord/streamChecker.mjs:249-325 | after go-live an id holds the role iff it held it before or has an entry and its member can be fetched; the members are otherwise the same |
| StreamProperties.GoLiveGrants | utils/discord/streamChecker.mjs:249-325 | go-live adds the role to `x` iff `x` has an entry and its member is fetched without the role; it removes the role from nobody |
| StreamProperties.GoLiveNotifies | utils/discord/streamChecker.mjs:263-314 | go-live sends exactly the notifications of the entries whose member is fetched, each to every channel that exists (`Notifications`) |
| StreamProperties.GoOfflineStepActions | utils/discord/streamChecker.mjs:329-350 | one go-offline turn (`GoOfflineStep`) removes the role iff its member is fetched holding it, issues nothing else, and changes no other member's role |
| StreamProperties.GoOfflineActions | utils/discord/streamChecker.mjs:327-354 | go-offline removes the role from `x` iff `x` is an offline id whose member is fetched holding it, and issues nothing else; afterwards an id holds the role iff it held it and is not offline |
| StreamProperties.GoLiveAbsentMembers | utils/discord/streamChecker.mjs:318-321 | entries whose members cannot be fetched issue nothing and change no member |
| StreamProperties.GoOfflineTrace | utils/discord/streamChecker.mjs:327-354 | go-offline keeps the member list, deletes from the live set exactly the unfetchable offline ids, and issues only removals for offline ids (which ones exactly: `GoOfflineActions`) |
| StreamProperties.GoOfflineRoles | utils/discord/streamChecker.mjs:330-334 | after go-offline, a member holds the role iff it held it before and did not go offline |
| StreamProperties.CompletedPass | utils/discord/streamChecker.mjs:168-354 | a completed pass had all answers and non-empty links and users; its live set is `nextLive` less the newly live entries whose member is missing; each member's final role is (held after the sweep or newly live) and not gone offline (the actions issued: `CompletedPassActions`) |
| StreamProperties.CompletedPassActions | utils/discord/streamChecker.mjs:217-354 | in a completed pass, `AddRole(x)` is issued iff `x` is newly live, has a go-live entry, and its member is fetched without the role after the sweep; `RemoveRole(x)` iff `x` went offline and its member holds the role after the sweep; a notification iff an entry whose member is fetched announces it |
| StreamProperties.TransitionsFollowTheDiff | utils/discord/streamChecker.mjs:168-244 | grants go only to ids in `next − previous`, removals only to ids in `previous − next`; ids live in both get no action and stay in the live set |
| StreamProperties.Convergence | utils/discord/streamChecker.mjs:123-354 | when the member list was fetched, the data are consistent (distinct member ids, one link per member, logins unique ignoring case and stored in Twitch's case) and every previously live member still holds the role, a pass that completes, or resets the role because there are no links or no Twitch users, leaves exactly the members in the live set holding the role |
| StreamProperties.SweepNothing | utils/discord/streamChecker.mjs:123-165 | a sweep that finds nobody to strip issues nothing and changes no member |
| StreamProperties.MinusCovered | utils/discord/streamChecker.mjs:236-241 | nothing goes offline when every previous id is still live |
| StreamProperties.QuietPass | utils/discord/streamChecker.mjs:123-354 | with nobody to strip, nobody gone offline and no fetchable newly live member, a pass issues nothing and keeps the members |
| StreamProperties.Idempotence | utils/discord/streamChecker.mjs:18-361 | under the same conditions as `Convergence` (member list fetched, consistent data, every previously live member holding the role, first pass completing or resetting), a second pass over the same answers, from what the first left, issues no action and keeps the members and the live set |
| StreamProperties.AsWrittenNeverGrants | utils/discord/streamChecker.mjs:209-215 | the pass as written never grows the live set and never grants the role or sends a notification |
| StreamProperties.AsWrittenAbortsOnNewlyLive | utils/discord/streamChecker.mjs:209-215 | as written, any newly live id makes the pass throw before :244: live set unchanged, no transition |
| StreamProperties.AsWrittenMissesNewStreamer | utils/discord/streamChecker.mjs:213 | concrete run: one linked member goes live and the as-written pass grants nothing and keeps the empty live set |
| StreamProperties.FirstPassGrants | utils/discord/streamChecker.mjs:217-325 | the same run through the corrected pass: the member is granted the role, notified once, and recorded live |
| StreamProperties.NewlyLiveMemberGetsRole | utils/discord/streamChecker.mjs:249-258 | a fetchable member that is newly live holds the role after a completed pass and is in the live set |
| StreamProperties.OfflineLinkMissingIsSticky | utils/discord/streamChecker.mjs:236-241 | a previously live id whose link was deleted makes every pass throw at :239, live set unchanged, so the id is never cleared |
| StreamProperties.LostRoleNotRestored | utils/discord/streamChecker.mjs:209-258 | with consistent data, a member who is still live but lost the role (removed by hand, or the add at :255-257 failed) is not given it back: the pass grants only to newly live ids, so it completes with no transition and the live set no longer matches the role holders |
| StreamProperties.CaseMismatchStripsLiveMember | utils/discord/streamChecker.mjs:134-179 | a link stored as "Syn" for Twitch login "syn": the sweep strips the live member's role each pass while `nextLive` keeps the id live, so the role is never given back: the second pass completes with no transition, keeps `["42"]` live and leaves the member without the role, which is exactly the state it started from |
| StreamProperties.OneAnswerLive | utils/discord/streamChecker.mjs:179-198 | the login matches ignoring case, so "syn" and "Syn" both make member 42 live |
| StreamProperties.OneAnswerSweep | utils/discord/streamChecker.mjs:134-139 | the sweep matches logins exactly, so it strips the live holder only for "Syn" |
| StreamProperties.ThumbnailSized | utils/discord/streamChecker.mjs:286-291 | `{width}` becomes 400 and then `{height}` becomes 225 in the thumbnail URL |
| StreamProperties.EmbedReadsBack | utils/discord/streamChecker.mjs:270-300 | the embed links to `https://twitch.tv/<login>`; without stream info it has the single "Go Watch!" field; with stream info the first field is "Stream Title" with the title and the second "Game/Category" with the game, or "Not specified" when it is empty; there are exactly two fields iff there is no viewer count, and otherwise the third field reads back that count in decimal |
| TwitchApi.TokenCache.constructor | utils/discord/twitchAPI.mjs:7-8 | no token and expiry 0 at start |
| TwitchApi.TokenCache.GetAppAccessToken | utils/discord/twitchAPI.mjs:10-35 | a grant caches the token with expiry `now + expires_in·1000 − 5000`; a failure clears token and expiry and reports the error |
| TwitchApi.TokenCache.EnsureAccessToken | utils/discord/twitchAPI.mjs:37-45 | a token is requested iff there is none or `now ≥ expiry`; otherwise the cache is untouched; the call succeeds iff a token is held afterwards, and returns that token; a refused request gives the request error and clears the cache, an empty granted token the missing-token error |
| TwitchApi.TokenCache.GetTwitchUsersByLogin | utils/discord/twitchAPI.mjs:47-73 | an empty login list gives `[]` without touching the token; otherwise the token cache is as after `EnsureAccessToken` (untouched, the new grant, or cleared with the request error), and with a still-valid or newly granted non-empty token the answer is the users on success and an error on a non-ok response |
| TwitchApi.TokenCache.GetLiveStreamsByUserIds | utils/discord/twitchAPI.mjs:76-109 | an empty id list gives `[]` without touching the token; otherwise the token cache is as after `EnsureAccessToken` (untouched, the new grant, or cleared with the request error), and with a still-valid or newly granted non-empty token the result is the streams of the successful batches, in batch order |
| TwitchApi.TokenReuseWindow | utils/discord/twitchAPI.mjs:25-40 | after a grant at `now`, a later call refreshes iff it comes at or after `now + expires_in·1000 − 5000`, and otherwise reuses the same token |
| TwitchApi.FetchBatches | utils/discord/twitchAPI.mjs:80-108 | the `i += 100` loop returns the concatenated streams of the successful batches of `Batches(userIds)` |
| TwitchApi.BatchAt | utils/discord/twitchAPI.mjs:84 | `slice(i, i + 100)` below the length is non-empty and has at most 100 ids |
| TwitchApi.BatchesPartition | utils/discord/twitchAPI.mjs:80-85 | the batches are consecutive slices of 1..100 ids, all but the last exactly 100, concatenating to the input; none for an empty input |
| TwitchApi.BatchesFrom | utils/discord/twitchAPI.mjs:83-84 | the batches from offset i are the slice at i followed by the batches from i + 100 |
| TwitchApi.FailedBatchSkipped | utils/discord/twitchAPI.mjs:95-105 | a batch that is non-ok or throws contributes nothing; the results on both sides of it are kept in order |
| TwitchApi.CollectSplit | utils/discord/twitchAPI.mjs:102 | collecting is a concatenation: results split at any batch boundary |
| TwitchApi.CollectedStreamsAnswered | utils/discord/twitchAPI.mjs:101-102 | every collected stream was answered by some successful batch |
| SynUtils.MonthName | utils/discord/synUtils.mjs:32-45 | `monthMap` has a three-letter name exactly for months 1..12 |
| SynUtils.MonthNamesDistinct | utils/discord/synUtils.mjs:32-45 | different months have different names |
| SynUtils.MatchTail | utils/discord/synUtils.mjs:48 | a matched tail after the sign renders back to the input; the hour is 1-2 digits and the minutes one of 00/15/30/45 |
| SynUtils.MatchOffset | utils/discord/synUtils.mjs:48 | a match of the offset pattern (`UTC`, a sign, 1-2 digits, optionally `:` and one of 00, 15, 30, 45) is well formed and renders back to the input |
| SynUtils.MatchRendered | utils/discord/synUtils.mjs:48 | every well-formed offset text is matched, with the same parts (with `MatchOffset`: the regex accepts exactly these texts) |
| SynUtils.Quarters | utils/discord/synUtils.mjs:352 | the minutes group read as quarter hours, at most 3 |
| SynUtils.OffsetBounded | utils/discord/synUtils.mjs:350-353 | for an offset `IsValidUtcOffset` accepts, `sign·(hours·60 + minutes)` lies in −885..885 and is a multiple of 15 |
| SynUtils.TimezoneAcceptedIffParsed | utils/discord/synUtils.mjs:340-363 | `ParseTimezone` succeeds iff the name is a known IANA zone or a valid UTC offset (the check in `setTimezone`) |
| SynUtils.BirthdayRequest | utils/discord/synUtils.mjs:144-178 | a non-mod is refused; an accepted request has day 1..31 and month 1..12 |
| SynUtils.PrefixBirthdayRejected | utils/discord/synUtils.mjs:159-178 | from a prefix message day and month are strings, so the request is always rejected |
| SynUtils.SlashBirthdayAccepted | utils/discord/synUtils.mjs:161-178 | a mod's slash command with a user and an in-range date is accepted as given |
| SynUtils.UpsertBirthdayStores | utils/discord/synUtils.mjs:181-197 | after the upsert the member has exactly one record with the new day and month (keeping its `lastWished`), other members' records are unchanged, ids stay unique |
| SynUtils.SetBirthday | utils/discord/synUtils.mjs:138-202 | a refused request or a database failure changes nothing; otherwise the birthdays are the upsert, the reply says "Updated" iff a record existed, and the other collections are untouched |
| SynUtils.TimezoneRequest | utils/discord/synUtils.mjs:248-284 | a non-mod is refused; an accepted zone parses |
| SynUtils.TimezoneAccepted | utils/discord/synUtils.mjs:257-284 | a mod's request naming a user is accepted iff the zone parses, from the slash and the prefix form alike |
| SynUtils.UpsertTimezoneStores | utils/discord/synUtils.mjs:286-300 | after the upsert the member has exactly one record with the new zone; others are unchanged |
| SynUtils.SetTimezone | utils/discord/synUtils.mjs:242-305 | a refused request or a database failure changes nothing; otherwise the zones are the upsert, "Updated" iff a record existed |
| SynUtils.TwitchRequest | utils/discord/synUtils.mjs:383-421 | a non-mod is refused; an accepted login matches `^[a-zA-Z0-9_]+$` |
| SynUtils.TwitchUsernameAccepted | utils/discord/synUtils.mjs:393-421 | a mod's request naming a user is accepted iff the login is non-empty letters, digits and underscores; `args[1 + mentions − 1]` picks the login after one mention |
| SynUtils.UsernameIsOneToken | utils/discord/synUtils.mjs:418 | an accepted login survives the handler's trim and split as one token |
| SynUtils.LinkDecision | utils/discord/synUtils.mjs:432-449 | a rename targets an existing link |
| SynUtils.ApplyLinkStores | utils/discord/synUtils.mjs:432-449 | in `ApplyLink`, a case-insensitively equal login keeps the link; a login taken by another link changes nothing (the unique index refuses the save); otherwise the member's one link carries the new login; others unchanged; both indexes stay unique |
| SynUtils.SetTwitch | utils/discord/synUtils.mjs:377-455 | a refused request or a database failure changes nothing; otherwise the links are updated by the decision and the reply is "already set", the failure reply, "Updated" or "Set" accordingly |
| SynUtils.Rows | utils/discord/synUtils.mjs:477-502 | one row per link, in order, "name (id)" or "Unknown User (id)" when the member cannot be fetched |
| SynUtils.Width | utils/discord/synUtils.mjs:474-500 | the column width is the maximum of 17 and every entry's length |
| SynUtils.BuildRows | utils/discord/synUtils.mjs:474-502 | the member loop yields exactly the rows and their maximum width |
| SynUtils.JoinRows | utils/discord/synUtils.mjs:511-514 | the row loop appends exactly the padded lines |
| SynUtils.TableAligned | utils/discord/synUtils.mjs:505-513 | header and separator lines both have width + 19 characters (width + 3 + 15 visible ones and the line break), and the header and every row have the column separator at columns width..width+3 |
| SynUtils.GetLinkedStreamers | utils/discord/synUtils.mjs:457-523 | no guild, a failed query, no links and the table are the four replies, chosen in that order |
| SynUtils.AskRepliesCover | utils/discord/synUtils.mjs:570-586 | in `AskReplies`, the chunks of a non-empty reply concatenate to it, each has 1..1900 characters and all but the last exactly 1900 |
| BirthdayChecker.Checker.constructor | utils/discord/birthdayChecker.mjs:3 | the wished-today set starts empty |
| BirthdayChecker.Checker.Check | utils/discord/birthdayChecker.mjs:5-53 | a missing channel or failed query changes nothing and sends nothing; otherwise the records, the wished-today set and the messages sent are those of the specification `RunCheck` |
| BirthdayChecker.Checker.Reset | utils/discord/birthdayChecker.mjs:55-62 | the set is cleared at 00:00 and kept otherwise |
| BirthdayChecker.LooseCheckNeverSkips | utils/discord/birthdayChecker.mjs:26-30 | the loose `!=` re-check never skips a record the query returned |
| BirthdayChecker.BeforeStep | utils/discord/birthdayChecker.mjs:29 | moving past one record changes what is recorded or wished of its member only (ids are unique) |
| BirthdayChecker.ReachedUnchanged | utils/discord/birthdayChecker.mjs:29-49 | a record is untouched until the loop reaches it, so its skip checks see the state from before the check |
| BirthdayChecker.WishUpToRecords | utils/discord/birthdayChecker.mjs:42-43 | after the loop `WishUpTo` (one `WishStep` per record), a record's `lastWished` is today iff its wish was attempted and saved, and it is otherwise unchanged |
| BirthdayChecker.WishUpToWished | utils/discord/birthdayChecker.mjs:45 | the wished-today set gains exactly the members whose wish was sent and saved |
| BirthdayChecker.WishUpToSent | utils/discord/birthdayChecker.mjs:40 | a message goes to exactly the members whose wish was attempted and whose send succeeded |
| BirthdayChecker.WishUpToKeepsIds | utils/discord/birthdayChecker.mjs:42-43 | the check changes no record's id |
| BirthdayChecker.CheckSendsExactly | utils/discord/birthdayChecker.mjs:29-49 | in `RunCheck`, a member is wished iff its record is due, not in wished-today, not wished today per `lastWished`, and the send succeeded; a failure for one does not stop the others |
| BirthdayChecker.SavedWishNotRepeated | utils/discord/birthdayChecker.mjs:34-43 | a saved wish is not repeated on a later check the same day, even after the set is cleared |
| BirthdayChecker.FailedSaveWishesAgain | utils/discord/birthdayChecker.mjs:43-45 | when the save fails the member is not added, so the next check the same day wishes again |
| BirthdayChecker.NewBirthdayIsWished | utils/discord/birthdayChecker.mjs:26-45 | a record stored as `day+""`/`month+""` for today is wished when sending succeeds |
| Commands.Registry.constructor | commands/commands.mjs:1 | the registry starts empty |
| Commands.Registry.AddCommand | commands/commands.mjs:3-7 | afterwards `commands[n]` is `{description, execute}`, overwriting any previous entry, and every other name is unchanged |
| Dispatch.Handle | index.mjs:68-84 | a message is ignored iff the author is a bot or it lacks the prefix; a found name runs its command with the remaining tokens (a throw gives the error reply); any other name gets "Unknown command!" |
| Dispatch.TokenizeRoundTrip | index.mjs:71-72 | a command line of words separated by single spaces is split by `Tokenize` into the lower-cased first word and the remaining words |
| Dispatch.RegisteredCommandRuns | index.mjs:71-80 | `!name arg…` for a registered lower-case name runs that command with exactly those arguments |
| Dispatch.NameMatchedIgnoringCase | index.mjs:72-74 | the name is matched after lower-casing, so `!PING` runs `ping` |
| Dispatch.HandleAsWritten | index.mjs:74-80 | the lookup on a plain object: ignored iff bot or no prefix, and inherited properties are found too |
| Dispatch.AsWrittenDiffersOnlyOnInherited | index.mjs:72-74 | the object lookup differs from the map lookup only for unregistered "constructor" and "\_\_proto\_\_" |
| Dispatch.UpperCaseKeys | index.mjs:72 | of the inherited property names only "constructor" and "\_\_proto\_\_" are lower-case |
| Dispatch.ConstructorMessage | index.mjs:74-82 | `!constructor` gives the generic error reply as written, and "Unknown command!" with the corrected lookup |
| Text.LowerStr | index.mjs:72 | `toLowerCase` (ASCII): same length, each letter lowered |
| Text.LowerStrIdempotent | utils/discord/streamChecker.mjs:179 | lower-casing twice is lower-casing once |
| Text.Trim | index.mjs:71 | `trim`: the result is a slice of the input with only white space around it, and neither begins nor ends with white space |
| Text.SplitSpaces | index.mjs:71 | `split(/ +/)`: at least one piece, none containing a space |
| Text.JoinSplit | index.mjs:71 | splitting words joined by single spaces gives the words back |
| Text.SplitJoin | index.mjs:71 | joining the pieces of a text without double spaces gives the text back |
| Text.PadEnd | utils/discord/synUtils.mjs:505-512 | `padEnd`: the text then spaces up to the width, or the text unchanged when it is longer |
| Text.Repeat | utils/discord/synUtils.mjs:508 | `"-".repeat(n)`: n copies of the character |
| Text.ReplaceFirstAt | utils/discord/streamChecker.mjs:287-289 | `replace` with a string pattern replaces its first occurrence only |
| Text.NatToDecimal | utils/discord/synUtils.mjs:185-186 | `toString` of a non-negative integer is a non-empty digit string |
| Text.DecimalRoundTrip | utils/discord/birthdayChecker.mjs:26-30 | reading back the decimal text of n gives n |
| Text.Chunks | utils/discord/synUtils.mjs:575 | `/[\s\S]{1,n}/g`: every piece has 1..n characters |
| Text.ChunksFlatten | utils/discord/synUtils.mjs:575 | the pieces concatenate to the input |
| Text.ChunksSizes | utils/discord/synUtils.mjs:575 | all pieces but the last have exactly n characters |
| Text.ChunkAt | utils/discord/synUtils.mjs:575 | piece k is the input's slice from k·n up to (k+1)·n, cut at the end of the input |
| Sequences.IndexOf | utils/discord/streamChecker.mjs:131 | `find`: the first position holding the value, and none iff it is absent |
| Schemas.Database.constructor | DB/schemas/twitchLinkSchema.mjs:4-13 | empty collections satisfy the unique indexes |

## Left out

- Discord and HTTP I/O is out: the gateway, REST calls, the Express status endpoint and `console` logging. The answers of the database, Twitch, Discord member/channel/role fetches and per-member sends are parameters or booleans.
- Role changes and sends whose errors are swallowed with `.catch` are assumed to take effect on the member list, because their failures do not change control flow. Staleness of discord.js's member cache is not modelled.
- MongoDB is three sequences with unique `discordId` (and a unique case-sensitive `twitchUsername`) as invariants. The schema files are declarative. A save either succeeds or fails as a whole (`dbUp`).
- The Gemini call in `ask`, its usage reply and API key check are left out (a foreign API); only the chunking of its answer is modelled.
- `moment-timezone` formatting and `Intl.supportedValuesOf` are left out; the IANA zone set is a parameter.
- `add` is left out, because it sums `parseFloat` values (floating point).
- `listStreamers`, `getBirthday` and `getTime` message formatting are left out (Discord wrappers and date formatting). Only `getTime`'s offset arithmetic is modelled.
- Timers (`setInterval`, `Date.now`, `new Date()`) are integer parameters. Overlapping passes (no in-flight guard) are concurrency and are not modelled.
- StreamChecker.StreamEngine.StartStreamLoop: does not run the immediate first pass (`checkStreams(client)` before the interval is set); a caller runs `CheckStreams`.
- The "Invalid context." branch of each command is left out; an invocation is either a prefix message or a slash command.
- `loadCommands.mjs` (registration data) is not part of this model.
- `/users` accepts at most 100 logins per request; the client sends them all in one request and the model does not bound it.
- Text.LowerStr: lower-cases ASCII letters only, not the full Unicode mapping of `toLowerCase`.
- Text.Chunks: counts characters, not UTF-16 code units. The regex at utils/discord/synUtils.mjs:575 has no `u` flag, so the bot cuts every 1900 code units, and a character outside the Basic Multilingual Plane counts twice there and may be split.
- Text.PadEnd: pads to a width in characters, whereas `padEnd` counts UTF-16 code units.
- SynUtils.Width: measures names and logins in characters, whereas `.length` counts UTF-16 code units, so the bot lines up names with characters outside the Basic Multilingual Plane differently.
- BirthdayChecker.LooselyDiffers: models JavaScript's loose `!=` between a string and a number only for digit strings; any other stored text is taken to differ.
- BirthdayChecker.Attempted: compares `lastWished` with today's midnight rather than by `toDateString`. These agree for values this code stores, which are always midnights.
- StreamChecker.LiveEmbed: the embed timestamp (`setTimestamp`) and the avatar URL computation are left out.
- The embed fields' values are not length-checked against Discord's limits.

## Findings

| source | as written | input that shows it | evidently intended | confidence | as-written member | corrected member |
|---|---|---|---|---|---|---|
| utils/discord/streamChecker.mjs:213 | the first go-live loop reads `streamInfo`, which is declared only at :224 inside a later block, so it throws a ReferenceError whenever someone is newly live; the catch at :357 swallows it before :244, so nobody is ever granted the role or notified | one link `42 → syn`, Twitch user `syn` live, empty live set: the pass grants nothing and the live set stays empty, every pass | build the go-live list as at :217-234 and continue | high, not executed | StreamChecker.PassAsWritten, StreamProperties.AsWrittenMissesNewStreamer | StreamChecker.Pass, StreamProperties.FirstPassGrants |
| index.mjs:74 | `commands[commandName]` on a plain object also finds properties inherited from `Object.prototype`; `!constructor` finds the `Object` function, whose `execute` is undefined, so the call throws and the generic error reply is sent | the message `!constructor` with no such command registered | only registered commands are found, so the reply is "Unknown command!" | high, not executed | Dispatch.HandleAsWritten, Dispatch.ConstructorMessage | Dispatch.Handle, Dispatch.RegisteredCommandRuns |

The offline list at :239 dereferences the link of a previously live id without a check. The model keeps that behaviour as written: the pass aborts, and `StreamProperties.OfflineLinkMissingIsSticky` shows that such an id then blocks every later pass. Likewise the sweep's exact-case login match at :134 is kept as written; `StreamProperties.CaseMismatchStripsLiveMember` shows its effect on a link stored in a different case. The go-live list at :217-234 holds only ids that are newly live, so a member who stays live after losing the role (removed by a moderator, or an add at :255-257 whose error was swallowed) never gets it back; `StreamProperties.LostRoleNotRestored` shows this on consistent data, and it is why `StreamProperties.Convergence` and `StreamProperties.Idempotence` require every previously live member to hold the role.
