# LFG session registry — a Dafny model

This project models the in-memory core of the chat bot's "looking for group"
(LFG) pings:

- `LFGManager` holds three cross-indexed maps: sessions by id, session id by
  the original trigger message, and expiry timer by id.
- `expire_session` is the single teardown path. It aborts the timer, forgets
  the session, then acts on the visible messages: nothing, delete the
  original message, or edit the status message into an "expired" or
  "cancelled" notice.
- `render_message` computes the fill count and the participant listing.
  On quorum it tears the session down and posts a ready announcement.
  Below quorum it creates the status message once, records its id, and
  edits that message on later renders.
- The session record (`LFGSession`), and `coerce_into_u64`, the 8-byte
  big-endian decoder the alias store relies on.

Modules, one per component:

| module | file | models |
|---|---|---|
| `Models` | models.dfy | src/models.rs: the session record, ids, UUIDs |
| `Util` | util.dfy | src/util.rs: `coerce_into_u64` |
| `LfgRender` | lfg_render.dfy | src/lfg.rs: the texts and payloads of the two operations |
| `Lfg` | lfg.dfy | src/lfg.rs: `ExpiryStrategy`, the registry, `LFGManager` and its two operations |
| `Discord` | discord.dfy | the chat platform's message types and the HTTP client, reduced to what the core uses |
| `Text` | text.dfy | decimal numbers, mentions, lines, `join`, hexadecimal: each writer with a reader |
| `Primitives`, `Wrappers` | primitives.dfy, wrappers.dfy | Rust's integer widths; `Option` |

How the outside world is modelled:

- HTTP calls are `Request` values appended to `Client.requests`, in order.
  A request is recorded when it is sent, whether or not the platform accepts it.
- Whether the platform accepts a request is a boolean parameter
  (`httpOk`, `teardownOk`, `sendOk`). So is the id the platform gives a
  created message (`sentId`).
- A refused request makes the operation end in `Err`. The in-memory changes
  made before it stay.
- `AbortHandle::abort` appends the handle to `LFGManager.aborted`.
- `Utc::now().timestamp_millis()` is the parameter `nowMs: i64`.
- Each operation is one sequential step on the maps. The `RwLock`s and the
  interleaving of tasks are not modelled.

`LFGManager.ExpireSession` and `LFGManager.RenderMessage` are proved against
pure functions of the old state: `Teardown`, `CancelledTimers`,
`ExpiryRequests`, `ExpiryOutcome`, `RenderRegistry`, `RenderRequests` and
`RenderOutcome`. The lemmas below state what the source promises about those
functions.

Behaviours of the code that the model keeps as they are:

- The "expired"/"cancelled" edit does not remove the join button. The edit
  replaces only the content, the allowed mentions and the embeds.
- The first status message is not sent as a reply to the original message.
- `DeleteOriginal` deletes the original message only when the stored session
  already has a status message. When quorum is reached on the very first
  render, the original message is not deleted.
- Tearing down an id aborts its timer even when no session exists for it.
- The record in src/models.rs declares neither `uuid` nor `facade_tag`, but
  src/lfg.rs reads both. The model adds them; `facade_tag` is taken to be a
  role id, printed in decimal by its `Display`.
- The ready announcement's mention list is `<@author>` followed directly by
  the space-joined mentions of the others, with no space after the author.
  The platform still reads every mention, and the model keeps this as written.

## Model

| member | source | states |
|---|---|---|
| `Lfg.LFGManager.constructor` | src/lfg.rs:50-56 | a new manager has three empty maps, has aborted nothing, and satisfies the cross-index invariant |
| `Lfg.LFGManager.ExpireSession` | src/lfg.rs:58-131 | the maps become `Teardown` of the old maps. The id's timer, if any, is aborted. Exactly the strategy's request (if any) is sent. The outcome is Ok, Err when the request is refused, or Panic when the flavour-text index is out of bounds |
| `Lfg.LFGManager.RenderMessage` | src/lfg.rs:133-252 | the maps become `RenderRegistry` of the old maps. Only the quorum teardown aborts a timer. Exactly `RenderRequests` are sent, and the status embed carries the listing as the code builds it. The outcome is `RenderOutcome` |
| `Lfg.ExpireAbsent` | src/lfg.rs:64-75 | for an id with no session, teardown only drops its timer entry. A timer is aborted exactly when one was stored, and it is the stored one. Nothing is sent and the result is Ok |
| `Lfg.ExpireIdempotent` | src/lfg.rs:64-75 | a second teardown of the same id changes no map, aborts nothing, sends nothing and returns Ok, whatever the strategy |
| `Lfg.TeardownFrame` | src/lfg.rs:64-80 | teardown removes the id from the session and timer maps and the session's original message from the index. Every other entry of the three maps is unchanged |
| `Lfg.TeardownConsistent` | src/lfg.rs:35-39 | teardown keeps the cross-index invariant. Afterwards no map mentions the id, as key or as indexed value |
| `Lfg.StrategyRequests` | src/lfg.rs:82-128 | the external step sends at most one request. It sends none when the session has no status message or the strategy is DoNothing |
| `Lfg.StrategyEffects` | src/lfg.rs:82-128 | DeleteOriginal deletes the original message, not the status message. Stale edits the status message with no content, blank allowed mentions and the embed "Expired ping" with `EXPIRED_MESSAGES[now % 4]`. A negative clock that is not a multiple of 4 panics and sends nothing. Cancelled sends the same edit with "Cancelled ping" naming the author |
| `LfgRender.ExpiredIndex` | src/lfg.rs:106-113 | the flavour index is always below 4. For `now >= 0` it is `now % 4`. It is absent (the panic) exactly when `now < 0` and `now` is not a multiple of 4 |
| `LfgRender.AsWrittenLayout` | src/lfg.rs:136-150 | the listing the code builds has these lines: two blank lines and the heading, then the bullets of the author, the participants and the added participants, in that order, with the first two on one line, then the "others" line if any, then a blank line and the footer. With only the author named, it equals the corrected listing |
| `LfgRender.ListingLayout` | src/lfg.rs:136-150 | the corrected listing, the intended half of the finding below and not what the code sends, has one bullet per line: author, then participants, then added participants, in order, framed like the code's |
| `LfgRender.OthersLineShown` | src/lfg.rs:144-148 | in the corrected listing, the line after the last bullet is "and N other(s)" iff fewer users are named (the author, the participants and the added participants) than counted. N is the difference; otherwise that line is blank |
| `LfgRender.OthersLineShownAsWritten` | src/lfg.rs:144-148 | the same for the listing as the code builds it, where the line after the bullets is one place earlier once a second user is named |
| `LfgRender.StatusDescriptionLines` | src/lfg.rs:195-202 | the status embed's description is the headline (author mention and expiry) followed by the code's listing, with the lines given by `AsWrittenLayout` |
| `LfgRender.ListingAsWrittenGluesBullets` | src/lfg.rs:136-142 | as written, once anyone besides the author is named, the author's bullet and the next bullet share the fourth line, so the lines differ from the intended layout |
| `LfgRender.ReadyMentionsRoundTrip` | src/lfg.rs:155-161 | the ready message's content is a spoiler. Its mentions read back as exactly the author, the participants and the added participants, in order |
| `LfgRender.JoinButtonIdRoundTrip` | src/lfg.rs:205-214 | the join button's id `lfg-<uuid>` reads back as the session's id |
| `LfgRender.JoinButtonIdInjective` | src/lfg.rs:207 | different sessions get different join-button ids |
| `Lfg.QuorumAnnounces` | src/lfg.rs:152-193 | at quorum the maps become `Teardown` of the session id. No message is edited. The only delete is of the stored session's original message. Exactly one message is created, and only if the teardown succeeded: in the session's channel, with the spoilered mentions of all named users in order, and allowed mentions parsing Roles and Users |
| `Lfg.BelowQuorumStatus` | src/lfg.rs:195-252 | below quorum, exactly one request and no abort. Without a status message: one create in the session's channel, titled `LFG Ping [count/required]`, with one button `lfg-<uuid>`. With one: that message is edited in place (embed only) and nothing is created. The embed's description is the headline followed by the code's glued listing, line by line |
| `Lfg.BelowQuorumWriteBack` | src/lfg.rs:218-241 | below quorum, the index and the timer map are unchanged and the snapshot is never written back. The only write sets the stored session's status message id after a successful first create, and only if the session is still stored |
| `Lfg.RenderConsistent` | src/lfg.rs:133-252 | rendering keeps the cross-index invariant |
| `Lfg.StatusCreatedOnce` | src/lfg.rs:218-249 | after a successful first status create, the stored session records the new id. A later below-quorum render of it edits that message and creates none |
| `Lfg.TimerAfterQuorum` | src/lfg.rs:163-164 | a stale-expiry timer that fires after the quorum teardown changes nothing, aborts nothing, sends nothing and returns Ok |
| `Util.CoerceIntoU64` | src/util.rs:22-31 | the zero-filled buffer, once filled from the slice and decoded, gives `Coerce(slice)` |
| `Util.Coerce` | src/util.rs:22-31 | the decoded value is always below 2^64 |
| `Util.CoerceShort` | src/util.rs:23-26 | a slice shorter than 8 bytes decodes to 0 |
| `Util.CoercePrefix` | src/util.rs:29 | bytes after the eighth are ignored |
| `Util.CoerceWeights` | src/util.rs:28-30 | the result is `sum slice[i] * 256^(7-i)` over the first 8 bytes |
| `Util.CoerceRoundTrip` | src/util.rs:28-30 | decoding `to_be_bytes(x)` gives back `x` for every u64 `x` |
| `Util.CoerceFallbackIsZero` | src/util.rs:23-25 | a short slice and eight zero bytes both decode to 0, so the two cannot be told apart |

## Findings

| source | as written | input that shows it | evidently intended | confidence | as-written member | corrected member |
|---|---|---|---|---|---|---|
| src/lfg.rs:136-142 | the listing starts with the author's bullet, then `join("\n")` of the other bullets, with no line break before the first of them | author 1, participants [2]: the fourth line is "`•` <@1>`•` <@2>" | one bullet per line: a line break before every bullet | not executed; high | `LfgRender.ListingAsWrittenGluesBullets` | `LfgRender.ListingLayout` |

The status embed carries the listing as the code builds it
(`LfgRender.ListingAsWritten`, laid out by `LfgRender.AsWrittenLayout`).
`LfgRender.Listing` is the corrected form, with `LfgRender.ListingLayout` as
its layout.

## Left out

- The trigger parser, session creation, `addParticipant` and the button
  handler: none exists in the source. `on_message` (src/lfg.rs:254) is empty,
  and nothing creates a session or adds a participant. The model's registry
  can therefore only start empty, or be any given state for the lemmas.
- The `RwLock`s and async interleaving. Per-session serialization under
  concurrency cannot be stated for a sequential model.
- `simple_embed` (src/util.rs:6-19) builds an embed from a colour, a title and
  a description. Its validation, which could fail, is not modelled.
- The fallible builder steps (`.context(...)?`) are not modelled, and neither
  is decoding the created message's response. A refused request is the only
  transport failure.
- `Utc::now()`: the milliseconds are a parameter. The session's expiry instant
  is carried as the one-line text its `Display` produces; calendar arithmetic
  is not modelled.
- The `warn!` log line in `coerce_into_u64`: logging only.
- src/main.rs (bootstrap, config, sled, gateway loop) and src/commands/
  (command registration and admin stubs): I/O and dispatch, outside the core.
- `ChairmanUser` and `ChairmanLink` (src/models.rs:26-43): no logic uses them.
- `excluded_participants` and `interested_participants` are carried in the
  record; no code reads them.
- Embed and button fields the code never sets (emoji, url, footer and the
  like) are not modelled.
