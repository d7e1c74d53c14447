# CMC social Discord bot — a Dafny model

The bot lets Discord members bind their account to a CoinMarketCap Community
handle and then submit their community posts for review. Registration
issues a one-time code (`CMC-` followed by eight symbols). The member puts the
code in a post, and `/verify` checks that post. `/submit` fetches a post
through a scraping task, normalizes it, and screens it (author, age,
duplicates). It then classifies its sentiment with an LLM and decides
automatically between approval, rejection and manual review. Admins can
override that decision and reset registrations. The admin dashboard shows a
user only the guilds they may administer.

The model has one module per core source file, plus three small shared
modules:

| module | file | models |
|---|---|---|
| `Wrappers` | wrappers.dfy | `Option` and `Result` (shared) |
| `Json` | json.dfy | JavaScript values, `?.` property access and `??` chains (shared) |
| `JsText` | js_text.dfy | `String.prototype.trim`, lower-casing, `includes` (shared) |
| `CmcPost` | cmc_post.dfy | src/services/cmcPost.ts: the post normalizer and the post-id extractor |
| `Paralon` | paralon.dfy | src/services/paralon.ts: `clamp01` and the validation of the classifier's answer |
| `Apify` | apify.dfy | src/services/apify.ts: the task input and the dataset polling loop |
| `Permissions` | permissions.dfy | admin/src/lib/permissions.ts: the guild access filter |
| `Commands` | commands.dfy | src/discord/commands.ts: codes, the checks, the decision table, and the handlers as methods of a `Bot` class over the database maps |

Everything outside the program becomes an input:
- the database is the state of `Commands.Bot`: maps of users, pending
  registrations, submissions and guild configurations;
- `Math.random` is a function from draw number to symbol index;
- the clock is one or more integer readings, or in the polling loop a
  sequence of readings;
- `JSON.parse` is a partial function `string -> Option<Json>`;
- `Number(string)` is a function `string -> Number`;
- the post fetch, the chat completion request, the scraping task call and
  the dataset reads are functions from request to response, or to the
  error the awaited call rejects with;
- the Discord and database lookups of the access filter are the functions of
  a `Permissions.Directory`.

Points of the code that the model keeps as they are:
- `review approve` and `review reject` update the submission by id without
  checking that it belongs to the caller's guild.
- A `postTime` made only of whitespace passes `mustString`, and `BigInt`
  reads it as 0 (`CmcPost.BlankPostTimeIsZero`).
- The classifier makes a single completion call
  (src/services/paralon.ts:39-46), with no retry.
- The review group has only list, approve and reject
  (src/discord/commands.ts:125-153).

## Model

| member | source | states |
|---|---|---|
| Json.FirstPresent | src/services/cmcPost.ts:18 | the first non-nullish entry of a `??` chain: every entry before it is nullish; `None` only when all are |
| JsText.Trim | src/services/cmcPost.ts:47 | the result is a slice of the input with only whitespace cut from both ends, and it has no whitespace at either end |
| JsText.TrimIdempotent | src/services/cmcPost.ts:47 | trimming twice is trimming once |
| JsText.LowerMatches | src/discord/commands.ts:262-263 | two texts lower-case alike exactly when they have the same length and agree character by character up to the case of ASCII letters |
| JsText.LowerIdempotent | src/discord/commands.ts:262-263 | lower-casing twice is lower-casing once |
| CmcPost.MustString | src/services/cmcPost.ts:12-15 | succeeds exactly on a non-empty string, returning it; otherwise `Missing <field>` for the given field |
| CmcPost.NormalizeCmcPost | src/services/cmcPost.ts:17-44 | the null-property error comes exactly for a null item, so any other item fails only with a missing field or a postTime syntax error; a normalized post has non-empty stableId, url, owner handle and text |
| CmcPost.StableIdRule | src/services/cmcPost.ts:18-24 | the item's own non-empty `stableId` wins; else a non-empty first non-nullish raw id, prefixed with `cmc-community:post:`; else `Missing stableId` |
| CmcPost.NormalizeSuccess | src/services/cmcPost.ts:17-44 | on success every required field resolves and each output field is exactly the value its fallback chain selects; the time is `BigInt` of the postTime string; bullish is kept only when boolean |
| CmcPost.NormalizeMissing | src/services/cmcPost.ts:18-31 | a missing-field error names a field that does not resolve while every field checked before it does: the first missing one |
| CmcPost.NormalizePostTimeSyntax | src/services/cmcPost.ts:30-31 | a postTime syntax error comes only when every field resolves, and carries the postTime text that `BigInt` rejects |
| CmcPost.NormalizeResolved | src/services/cmcPost.ts:17-44 | an item on which every field resolves normalizes, or fails only on postTime syntax |
| CmcPost.NonStringRawIdStopsChain | src/services/cmcPost.ts:18-24 | a present non-string `raw.id` hides `gravityId`: without `item.stableId` the item fails with `Missing stableId` |
| CmcPost.EmptySourceUrlIsMissing | src/services/cmcPost.ts:26 | an empty `source.url` does not fall through to `raw.url`, and the item fails with `Missing url` |
| CmcPost.NumericPostTimeIsMissing | src/services/cmcPost.ts:30-31 | a numeric `postTime` fails with `Missing postTime` |
| CmcPost.NonBooleanBullishIsAbsent | src/services/cmcPost.ts:33-34 | a non-boolean at the first bullish location gives absent, whatever the second location holds |
| CmcPost.BlankPostTimeIsZero | src/services/cmcPost.ts:31 | a whitespace-only postTime parses to 0 |
| CmcPost.DigitsValue | src/services/cmcPost.ts:31 | a digit string in base 2 to 16 has a value exactly when it is non-empty and all its digits are in the base |
| CmcPost.BigIntRoundTrip | src/services/cmcPost.ts:31 | `BigInt` reads back the decimal text of every integer |
| CmcPost.NormalizeRoundTrip | src/services/cmcPost.ts:17-44 | the canonical scraped item of any well-formed post normalizes back to that post |
| CmcPost.FindPostId | src/services/cmcPost.ts:48-49 | the digit run after the leftmost case-insensitive post-link match at or after the start position |
| CmcPost.ExtractCmcPostIdOrUrl | src/services/cmcPost.ts:46-51 | with a post link, the non-empty maximal digit run of the first link; otherwise the trimmed input |
| CmcPost.ExtractIdempotent | src/services/cmcPost.ts:46-51 | extracting twice equals extracting once |
| Paralon.Clamp01 | src/services/paralon.ts:18-21 | NaN gives 0, values in [0,1] pass unchanged, smaller values and -Infinity give 0, larger values and +Infinity give 1; the result always lies in [0,1] |
| Paralon.Clamp01IsNearest | src/services/paralon.ts:18-21 | for finite input, no point of [0,1] is closer than the clamped value |
| Paralon.Clamp01Idempotent | src/services/paralon.ts:18-21 | clamping a clamped value changes nothing |
| Paralon.Salvage | src/services/paralon.ts:54-55 | found exactly when some `{` precedes some `}`; then it spans from the first `{` to the last `}`, greedy |
| Paralon.ParseContent | src/services/paralon.ts:49-57 | the direct parse wins when it succeeds; otherwise the salvaged substring is parsed; no braces gives the invalid-JSON error |
| Paralon.LabelOf | src/services/paralon.ts:60-67 | exactly the strings `positive`, `neutral`, `negative` are labels, compared case-sensitively |
| Paralon.LabelRoundTrip | src/services/paralon.ts:65-67 | each label's own name reads back as that label |
| Paralon.ToNumber | src/services/paralon.ts:61 | `Number(obj?.confidence)`: throws exactly for a value holding an object with its own `toString` key; absent gives NaN, null 0, false 0, true 1, a number itself, a string its conversion, a plain object NaN, an array its `ArrayToNumber` value |
| Paralon.ArrayToNumber | src/services/paralon.ts:61 | an array converts through its joined text: throws when an element cannot convert; empty gives 0, two or more elements NaN, one element reads as that element's text (null 0, a boolean NaN, a number itself, a string its conversion, a plain object NaN) |
| Paralon.ClassifySentiment | src/services/paralon.ts:48-72 | parse errors propagate; then a confidence that `Number` cannot convert throws; otherwise it fails exactly on an invalid label; on success `rawJson` is the parsed value unchanged, the confidence is the clamp of `Number(confidence)`, and `language`/`rationale` take the given strings or the defaults `unknown` and empty |
| Paralon.ClassifyText | src/services/paralon.ts:23-72 | a failed completion request throws its own error; otherwise the call succeeds exactly when the answer validates, with that record, and throws the validation error's message otherwise |
| Paralon.ClassifyTextRoundTrip | src/services/paralon.ts:23-72 | a completion that answers with a sentiment's object makes the whole call return exactly that sentiment and object |
| Paralon.MissingContentIsInvalidJson | src/services/paralon.ts:48-55 | missing content is read as `''` and ends in the invalid-JSON error |
| Paralon.UnconvertibleConfidenceThrows | src/services/paralon.ts:59-61 | a confidence object with its own `toString` key, bare or in a one-element array, makes the call throw before the label is checked |
| Paralon.NonNumericConfidenceIsZero | src/services/paralon.ts:61 | a confidence that converts to NaN becomes 0 |
| Paralon.ClassifyRoundTrip | src/services/paralon.ts:48-72 | an answer that parses to the object of a sentiment classifies as exactly that sentiment |
| Apify.TaskInputCarriesReference | src/services/apify.ts:28-47 | `platformRuns[0].input.postIdOrUrl` of the task input is the argument |
| Apify.TaskInputOnlyReferenceVaries | src/services/apify.ts:28-47 | overwriting the reference of one task input gives the task input of the new reference: nothing else depends on it |
| Apify.FetchCmcPostViaTask | src/services/apify.ts:50-75 | a failing task call or a run without dataset id fails before any poll; otherwise every poll made was within the budget; the result is item 0 of the first non-empty poll, with the run and dataset ids; a failing poll ends the call with its error after empty in-budget polls; a timeout comes after empty in-budget polls, at the first reading past the budget (a reading equal to the budget still polls); each poll asks for 1 clean item |
| Apify.PollCountBound | src/services/apify.ts:59-74 | when every sleep lasts at least 2000 ms, the polls made within the budget number at most `timeoutMs / 2000 + 1` |
| Apify.PollAsWritten | src/services/apify.ts:57-76 | the loop with the budget as the program reads it, possibly undefined: each outcome is pinned to the polls made; an undefined budget never expires, and a dataset that stays empty keeps it polling for every number of iterations watched |
| Permissions.PermittedGuilds | admin/src/lib/permissions.ts:14-38 | no more entries than the user has guilds |
| Permissions.PermittedGuildsSound | admin/src/lib/permissions.ts:17-36 | every entry is the id and name of a guild of the input that has a configuration and is allowlisted or holds the admin role |
| Permissions.PermittedGuildsComplete | admin/src/lib/permissions.ts:17-36 | every such permitted guild of the input appears |
| Permissions.AllPermittedKeepsAll | admin/src/lib/permissions.ts:17-36 | when every guild is permitted, the whole list comes back in order |
| Permissions.PermittedGuildIds | admin/src/lib/permissions.ts:47-48 | a guild id is among the entries exactly when a permitted guild of the input has it |
| Permissions.PermittedGuildsSplit | admin/src/lib/permissions.ts:17-36 | the filter distributes over concatenation, so the input order is kept |
| Permissions.AllowedGuilds | admin/src/lib/permissions.ts:7-38 | for the super-admin, every guild in order, mapped to id and name; for anyone else, exactly `PermittedGuilds`: only permitted guilds and every permitted guild, each once, in input order |
| Permissions.ListAllowedGuilds | admin/src/lib/permissions.ts:7-39 | the loop computes exactly `AllowedGuilds` |
| Permissions.AssertGuildAccess | admin/src/lib/permissions.ts:41-49 | always passes for the super-admin; for anyone else passes exactly when some permitted guild of theirs has the id |
| Permissions.UnconfiguredGuildHidden | admin/src/lib/permissions.ts:18-19 | a guild without configuration is never accessible to an ordinary user |
| Permissions.EmptyAdminRoleGrantsNothing | admin/src/lib/permissions.ts:29-35 | an empty admin role id leaves access to the allowlist alone |
| Commands.RandomCode | src/discord/commands.ts:14-19 | builds exactly `CodeFrom` of its eight draws |
| Commands.CodeFromIsCode | src/discord/commands.ts:14-19 | every code is `CMC-` followed by eight alphabet symbols, twelve characters in all |
| Commands.CodeAvoidsLookalikes | src/discord/commands.ts:15 | no code contains I, O, 0 or 1 |
| Commands.LatestActive | src/discord/commands.ts:183-186 | the row found is unconsumed, unexpired and the user's, and none of theirs is issued later; none found means the user has no active row |
| Commands.ChosenAttempt | src/discord/commands.ts:200-206 | the loop stops at the first free code among the first five; all earlier ones collide |
| Commands.ChooseCode | src/discord/commands.ts:200-206 | the loop ends with the chosen attempt's code after at most five lookups (one per attempt up to a free one) |
| Commands.CheckProof | src/discord/commands.ts:252-266 | author match (exact), then posting after issue (strict), then the code in the text (ASCII case-insensitive); the first failure decides, and it passes exactly when all three hold |
| Commands.CodeFoundInAnyCase | src/discord/commands.ts:262-264 | a code occurrence in any ASCII case passes the check |
| Commands.AgeLimitIsInclusive | src/discord/commands.ts:310-314 | a post exactly `maxPostAgeDays` days old, or dated in the future, is not too old |
| Commands.ScreenSubmission | src/discord/commands.ts:303-320 | handle mismatch, then age, then duplicate of any status; the first failure decides, and the post is admitted exactly when none applies |
| Commands.Decide | src/discord/commands.ts:331-351 | the reason is always set; approved exactly for bullish and positive at or above the threshold; rejected exactly for bullish false; review otherwise; each reason text as in the source |
| Commands.ThresholdMonotone | src/discord/commands.ts:344 | lowering the threshold keeps an approval |
| Commands.SentimentOnlyMattersWhenBullish | src/discord/commands.ts:336-341 | without a true bullish flag the sentiment has no effect on the decision |
| Commands.DecidedAt | src/discord/commands.ts:371 | unset exactly for a pending review, else the decision time |
| Commands.DecidedBy | src/discord/commands.ts:372 | unset exactly for a pending review, else `SYSTEM` |
| Commands.ParseStatusFilter | src/discord/commands.ts:448-450 | a filter exactly for the three status names, compared exactly, and it is the named status |
| Commands.StatusFilterRoundTrip | src/discord/commands.ts:448-450 | each status name parses back to that status |
| Commands.NewestListed | src/discord/commands.ts:452-456 | at most ten ids, each of a submission of the guild that passes the filter |
| Commands.NewestListedIsOrdered | src/discord/commands.ts:454 | the list goes newest first |
| Commands.NewestListedIsComplete | src/discord/commands.ts:452-456 | a matching submission is left out only when the page is full and everything shown is newer |
| Commands.WithoutUser | src/discord/commands.ts:405-407 | keeps exactly the pending rows of other users, unchanged |
| Commands.ResetClearsActiveCode | src/discord/commands.ts:399-409 | after a reset the user has no active code, so the next registration starts fresh |
| Commands.FetchedPostWellFormed | src/discord/commands.ts:241-244 | a post that fetches and normalizes has all four strings non-empty |
| Commands.PendingInvariantInsert | src/discord/commands.ts:200-210 | a new row with an unused code keeps codes unique and ids below the counter |
| Commands.SubmissionInvariantInsert | src/discord/commands.ts:316-374 | a new submission of a post not yet held keeps posts unique across all guilds |
| Commands.SubmissionInvariantOverride | src/discord/commands.ts:468-495 | an override keeps the post and records its decision |
| Commands.OneActiveLater | src/discord/commands.ts:183-186 | as time passes rows only leave the active set, so one active row per user stays true |
| Commands.OneActiveInsert | src/discord/commands.ts:183-210 | a new row for a user with no active row keeps every user at one active row at most |
| Commands.OneActiveConsume | src/discord/commands.ts:268-274 | consuming a row keeps every user at one active row at most |
| Commands.Bot.constructor | src/discord/commands.ts:163-498 | an empty database satisfies the invariant |
| Commands.Bot.EnsureGuildConfig | src/discord/commands.ts:21-31 | an existing configuration is returned; a missing one is created with 7 days and 0.65; the model clock is left where it was |
| Commands.Bot.Register | src/discord/commands.ts:163-219 | an already registered user changes nothing; otherwise the user row is upserted; an active code is returned unchanged, with no lookup and no row; else the collision loop makes at most five lookups and its last code is inserted as a row for the trimmed handle that expires twelve hours after now, unconsumed; afterwards no user has two active rows at `now` |
| Commands.Bot.UpsertUser | src/discord/commands.ts:174-178 | creates the user row when missing and leaves an existing one untouched; nothing else changes |
| Commands.Bot.IssueCode | src/discord/commands.ts:200-210 | the row carries the collision loop's final code; a code already in use inserts nothing |
| Commands.Bot.Verify | src/discord/commands.ts:221-277 | missing user, registered user, no active code, fetch or normalization failure, failed check: in that order, each one changes nothing; success sets the handle and consumes that row and nothing else; the model clock is left where it was |
| Commands.Bot.CommitRegistration | src/discord/commands.ts:268-274 | both rows of the transaction change together and nothing else changes; the model clock is left where it was |
| Commands.Bot.Submit | src/discord/commands.ts:279-385 | guild, registration, fetch, normalization, screening: every rejection comes before the classifier is asked and writes no submission; on success exactly one row is added, carrying the post, the classification, the decision and the stamps; the model clock is left where it was |
| Commands.Bot.InsertSubmission | src/discord/commands.ts:353-374 | adds exactly one row under the next id; the model clock is left where it was |
| Commands.Bot.Admin | src/discord/commands.ts:387-498 | no guild or no authority changes nothing; reset, list, approve and reject act as described and change nothing else; approve uses `Approved by admin.` and reject the given reason; the model clock is left where it was |
| Commands.Bot.ResetRegistration | src/discord/commands.ts:399-409 | the user's handle and registration time are cleared and all their pending rows deleted; the model clock is left where it was |
| Commands.Bot.Override | src/discord/commands.ts:468-495 | only the status, the decision stamps and the reason of that one submission change; an unknown id changes nothing; the model clock is left where it was |

## Left out

- Slash-command builders, `handleCommand` dispatch, reply texts and Discord
  markup are presentation. The outcome datatypes carry what the replies would
  show.
- `isAdmin` (src/discord/commands.ts:33-53) duck-types discord.js role
  caches. `Commands.Bot.Admin` takes its verdict as the boolean input
  `authorized`.
- The admin `config` and `allowlist` subcommands and the "Unknown admin
  command" answer are not modelled, because they are not part of the
  moderated workflow. `AdminCommand` has only reset-user and the three
  review subcommands.
- Commands.Bot.Submit: a normalization failure escapes `handleSubmit` as an
  uncaught exception. The model returns it as the `SubNormalizeFailed`
  outcome, with the state that exception leaves behind.
- Commands.Bot.IssueCode: when all five lookups collide, the sixth code is
  inserted unchecked. The model then follows the database's unique index on
  `code`: a colliding insert is refused (`RegCodeConflict`) and adds no row.
- Commands.Bot.Override: a missing id makes `prisma.submission.update`
  throw, and the error escapes `handleAdmin`. The model returns it as the
  `AdmNotFound` outcome, which changes nothing.
- Paralon.ParseContent: when the salvaged substring does not parse either,
  the `JSON.parse` error escapes with the engine's own message. The model
  gives one fixed `SalvagedJsonInvalid` text for it.
- Commands.Decide: `confidence.toFixed(2)` is float formatting and is an
  input function `fixed2`. Only the structure of the reason is modelled.
- JsText.Lower: only ASCII letters are lower-cased. Handles are compared
  exactly and codes are ASCII, so the gap is in the post text: `toLowerCase`
  maps U+212A KELVIN SIGN to `k`, so a post containing `CMC-ABCDEFG` followed
  by U+212A passes the code search for `CMC-ABCDEFGK` in the source and
  fails `Commands.CheckProof` in the model.
- Ids: submission and pending-registration ids are database-generated
  strings in the source. The model uses a counter. Creation order is id
  order, which stands in for `createdAt`/`issuedAt` ordering; ties in
  `issuedAt` go to the later row.
- Rows: users are keyed by Discord user id, which identifies the `User` row
  one-to-one. The `userId` foreign key of a submission is not stored
  separately.
- Number widths: the model has no 64-bit limit on the post-time column and
  no double precision. Confidences are reals, times are integers.
- Apify.FetchCmcPostViaTask / Apify.PollCountBound: the program reads its
  budget from `APIFY_TASK_TIMEOUT_MS`, which src/env.ts:6-25 does not
  declare, so the budget is undefined and the timeout never fires. These two
  members describe the loop with a configured numeric budget;
  `Apify.PollAsWritten` describes the loop as written (see Findings).
- Apify.FetchCmcPostViaTask: termination relies on the clock advancing
  across each sleep, a requirement of the model; `startedAt` and the first
  reading in the loop may be equal. The error texts, logging and
  `setTimeout` are not modelled, and `list.items ?? []` is a sequence.
- The chat completion request: the prompt, its model name and temperature
  are not modelled. `Paralon.ClassifyText` takes the request as a function of
  the post text.
- Environment overrides are not modelled. `DEFAULT_MAX_POST_AGE_DAYS`,
  `DEFAULT_SENTIMENT_MIN_CONFIDENCE` and `DEFAULT_ADMIN_DISCORD_USER_ID` use
  their defaults, and the super-admin id is a parameter.
- Commands.Bot: the clock is a ghost field that only `Register` moves
  forward (every other handler leaves it where it was); one active pending
  row per user is kept only for registrations that come in time order.
- Concurrency: two handlers interleaving, and the database's uniqueness
  backstops against such races, are not modelled. Each handler is one
  atomic step.
- The dashboard's HTTP calls (guild list, member roles) are the functions of
  `Permissions.Directory`. A failing request is not modelled: neither the
  guild-list request nor the member-roles request (`fetchMemberRoleIds`,
  which throws when `fetch` rejects or the body is not JSON, and whose
  throw escapes `listAllowedGuilds`); both always answer.
- The web application's routes (points award and revoke, web approve and
  reject, settings) are outside this model.

## Findings

| source | as written | input that shows it | evidently intended | confidence | as-written member | corrected member |
|---|---|---|---|---|---|---|
| src/services/apify.ts:58-65 | `timeoutMs` is `env.APIFY_TASK_TIMEOUT_MS`, a key src/env.ts:6-25 does not declare and the schema parse drops, so it is `undefined` and `elapsed > timeoutMs` is always false | a task run whose dataset stays empty: the loop polls every 2 s without end, and the `Timed out` error is never thrown | the wait fails with `Timed out` once the elapsed time passes a configured budget, after at most `timeoutMs / 2000 + 1` polls | high; not executed | Apify.PollAsWritten | Apify.FetchCmcPostViaTask |
