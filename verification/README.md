# VBot-AI services in Dafny

This project models the two services behind the VBot-AI chat client.

**`ApiService`** is the streaming chat client. It has:
- a whitelist-guarded model selection;
- the JSON request it posts (the system prompt, then the last ten history messages);
- the classification of a failed HTTP response into one `onError` message;
- the read loop of `sendMessageStream`.

The read loop appends each decoded chunk to a buffer and splits the buffer on newlines. It keeps the unterminated tail for the next chunk. It trims each complete line and skips empty lines, the `data: [DONE]` sentinel and lines without the `data: ` prefix. It parses the rest and routes each event's `content` fragment to `onChunk` and its `reasoning_content` fragment to `onReasoning`. It signals `onComplete` when the transport is exhausted, or the stream-read error when a read fails. The loop is written as a pure fold over the decoded chunks, followed by how the body ended (`Done` or `ReadFailed`). The callbacks become a trace of events: `Chunk`, `Reasoning`, `Complete`, `Error`. JSON parsing is an abstract partial function from the payload text to an optional `Delta`.

**`ShareService`** is the share store. Its two localStorage keys become the two sequences of a `ShareStore` value:
- the shares, oldest first, capped at the 100 most recent;
- the history, newest first, capped at 50.

Each method is a pure transition from one store to the next: create, save, look up (which counts a view), update, delete, remove from history, preview, statistics and link generation.

Files:
- `wrappers.dfy`: `Option`.
- `seqs.dfy`: flat-map, `slice(-n)` and capped append.
- `text.dfy`: the JavaScript string operations used. These are `split("\n")`, `trim()` over the ECMAScript whitespace set, `startsWith`, decimal rendering of a number, and `||` on optional strings.
- `framing.dfy`: line framing and the fold over chunks.
- `api_service.dfy` and `client_properties.dfy`, `stream_properties.dfy`: the client and its properties.
- `share_service.dfy`, `share_properties.dfy` and `share_stats.dfy`: the store, its properties and its statistics.

The `data: [DONE]` line is only skipped (src/services/apiService.js:87-89): the loop keeps reading, later lines are still dispatched, and only `done` from the reader calls `onComplete`. `StreamProperties.SentinelTransparent` states that behaviour.

## Model

| member | source | states |
|---|---|---|
| ApiService.NewClient | src/services/apiService.js:4-7 | A new client has the chat model selected, which is a supported model. |
| ApiService.SetModel | src/services/apiService.js:10-17 | A supported name becomes the selected model. Any other name leaves the client exactly as it was. The endpoint never changes, and a valid client stays valid. |
| ApiService.GetModel | src/services/apiService.js:20-22 | The model returned is the client's current selection, and it is always one of the two supported models. |
| ClientProperties.SelectModelsLastWins | src/services/apiService.js:10-17 | After any sequence of `setModel` calls, the model is the last supported name requested, or the earlier model if none was. Rejected names leave no trace. |
| ApiService.BuildRequest | src/services/apiService.js:32-45 | The body carries the selected model and `stream: true`. The system message comes first, followed by the last `min(10, n)` history messages in their original order, so at most 11 messages are sent. |
| ClientProperties.WholeHistorySent | src/services/apiService.js:34-43 | A history of at most ten messages is sent whole, after the system message. |
| ClientProperties.NewestMessageLast | src/services/apiService.js:39-43 | The newest history message is always the last message sent. |
| ClientProperties.HistoryWindowSlides | src/services/apiService.js:39-43 | One more history message adds itself at the end of the window. It drops the window's oldest message only when the window was full. |
| ApiService.FailureMessage | src/services/apiService.js:52-60 | The invalid-key and rate-limit failures get their fixed texts. An API error's text is `API 错误: ` followed by its detail, and an HTTP error's text is `HTTP 错误: ` followed by decimal digits that read back as its status. |
| ApiService.ClassifyFailure | src/services/apiService.js:48-62 | 401 gives the invalid-key failure and 429 the rate-limit failure. Any other status gives an API error with the body's message, or "未知错误" when that is missing or empty, if the body reads as JSON. Otherwise it gives an HTTP error carrying the status. |
| ClientProperties.FailureMessageInjective | src/services/apiService.js:49-62 | Distinct failures always produce distinct `onError` texts, so the message identifies the failure, its detail and its status. |
| ClientProperties.MessageShape | src/services/apiService.js:52-60 | Each failure text has the shape of its kind: the invalid-key and rate-limit texts, `API 错误: ` plus the detail, or `HTTP 错误: ` plus the decimal status. |
| Text.DecimalRoundTrip | src/services/apiService.js:60 | The decimal rendering of a status reads back as that status. |
| Text.NatToStringInjective | src/services/apiService.js:60 | Distinct statuses render as distinct decimal strings. |
| Framing.FeedChunk | src/services/apiService.js:81-83 | After each chunk, the buffer holds no newline. The completed lines, each followed by its newline, then the buffer, are exactly the old buffer plus the chunk. |
| Framing.FramingUnique | src/services/apiService.js:82-83 | Text can be written in only one way as newline-terminated lines followed by a tail without a newline. |
| Framing.SplitFramed | src/services/apiService.js:82-83 | Splitting framed text recovers exactly its lines and its tail. |
| Text.SplitRebuilds | src/services/apiService.js:82 | `split("\n")` gives pieces without newlines, which joined with newlines rebuild the text. |
| Framing.FeedAll | src/services/apiService.js:73-112 | The loop body, framing each chunk against the carried buffer and routing its complete lines, routes exactly the complete lines of all the text received, in order. |
| Framing.CompletedAfterLines | src/services/apiService.js:82-83 | Complete lines in front of a text stay, in front, among the complete lines of the whole. |
| Framing.CompletedIgnoresTail | src/services/apiService.js:82-83 | A tail without a newline completes no line. |
| Text.TrimSpec | src/services/apiService.js:86 | `trim()` returns the contiguous middle of the line, with only whitespace cut from either end and no whitespace left at its ends. It is empty exactly when the line is all whitespace. |
| ApiService.Payload | src/services/apiService.js:86-93 | A line has a payload exactly when, trimmed, it is not empty, is not `data: [DONE]` and starts with `data: `. The payload is the trimmed line after that prefix. |
| ApiService.DispatchLine | src/services/apiService.js:86-111 | A line yields at most a content fragment followed by a reasoning fragment. Both are non-empty, and a reasoning fragment appears only when reasoning is enabled. A line with no payload yields nothing. |
| StreamProperties.LineRouting | src/services/apiService.js:92-110 | An unparsable payload yields nothing. Otherwise `onChunk` fires, first, exactly when `content` is non-empty. `onReasoning` fires, last, exactly when `reasoning_content` is non-empty, the callback was supplied and the reasoner model is selected. |
| StreamProperties.SentinelIsSilent | src/services/apiService.js:87-89 | The `data: [DONE]` line produces no callback, in particular no `onComplete`. |
| StreamProperties.CarriageReturnIgnored | src/services/apiService.js:86 | A trailing carriage return does not change what a line produces. |
| StreamProperties.TrimIgnoresTrailingWhitespace | src/services/apiService.js:86 | Trailing whitespace does not change the trimmed line. |
| ApiService.DispatchLines | src/services/apiService.js:85-112 | Every event produced by a run of lines is a non-empty fragment, and a reasoning fragment only when reasoning is enabled. |
| ApiService.TerminalEvent | src/services/apiService.js:73-117 | `done` ends the trace with `onComplete`, and a read failure ends it with `onError("数据流读取失败，请重试。")`. Nothing else ends a trace. |
| ApiService.ReadLoop | src/services/apiService.js:70-117 | The trace ends with exactly one terminal event: `onComplete` at `done`, or the stream-read error after a read failure. Every event before it is a non-empty content or reasoning fragment. |
| ApiService.ReadLoopWholeText | src/services/apiService.js:70-117 | The trace is what dispatching the complete lines of the whole body at once gives, followed by the terminal event. |
| StreamProperties.ChunkBoundaryInvariance | src/services/apiService.js:73-85 | Two deliveries of the same text, however it is cut into chunks, give the same trace. |
| StreamProperties.SameAsSingleChunk | src/services/apiService.js:73-85 | Any delivery gives the trace of the whole body delivered as one chunk. |
| StreamProperties.TrailingFragmentDropped | src/services/apiService.js:76-83 | A last fragment without a newline is never dispatched; the stream ends as if it had not arrived. |
| StreamProperties.DispatchLinesAppend | src/services/apiService.js:85-112 | The events of consecutive runs of lines are the events of each run, in order. |
| StreamProperties.CompletedAroundLine | src/services/apiService.js:82-85 | A line between complete lines and more text is framed as itself, between the lines before it and the lines after it. |
| StreamProperties.DispatchAroundSilentLine | src/services/apiService.js:85-112 | A line that yields nothing can be dropped from a run of lines without changing its events. |
| StreamProperties.SilentLineTransparent | src/services/apiService.js:85-110 | A complete line that yields no callback (blank, unprefixed or unparsable) is invisible. The stream with it gives the same trace as the stream without it, and later lines are still processed. |
| StreamProperties.SentinelTransparent | src/services/apiService.js:73-91 | A sentinel line anywhere in the body changes nothing. Later lines are still dispatched, and `onComplete` occurs exactly when the reader reports `done`. |
| StreamProperties.CompletesOnlyAtDone | src/services/apiService.js:73-117 | `onComplete` is in the trace exactly when the reader reported `done`, whatever the body contained. |
| StreamProperties.ReasoningOnlyLines | src/services/apiService.js:96-107 | Lines carrying only reasoning deliver one `onReasoning` each when reasoning is enabled, and nothing at all otherwise. `onChunk` is never called. |
| StreamProperties.OneLineInTwoChunks | src/services/apiService.js:81-83 | Two chunks ending in one newline carry exactly one complete line, the two pieces joined. |
| StreamProperties.SplitLineDeliveredOnce | src/services/apiService.js:81-101 | An event line cut by the transport mid-word is reassembled and delivered once, whole, and the stream then completes. |
| ApiService.SendMessageStream | src/services/apiService.js:24-124 | A network failure gives exactly one `onError` with the network message. A non-OK response gives exactly one `onError` with its classified message and no reading. An OK response gives the read loop's trace. Exactly one terminal event is signalled, last. It is `onComplete` exactly when the response was OK and the body ended normally. Reasoning reaches the caller only with the reasoner model and a supplied callback. |
| Seqs.LastN | src/services/apiService.js:39 | For a positive `n`, `slice(-n)` keeps the last `min(n, length)` entries, in order, and everything when there are at most `n`. |
| Seqs.LastNAppend | src/services/apiService.js:39 | `slice(-n)` of a list grown by one is the previous window plus the new entry, minus the window's oldest entry when it was full. |
| Seqs.FlatMapAppend | src/services/apiService.js:85-112 | Routing consecutive runs of lines concatenates their events. |
| Seqs.Push | src/services/shareService.js:81-86 | Pushing onto a list capped at `n` puts the new entry last, after the most recent earlier entries in order. The list holds `min(n, length + 1)` entries, and nothing is dropped while there is room. |
| Seqs.PushKeepsLastN | src/services/shareService.js:81-86 | Capped pushing is `push` followed by keeping the last `n` entries. |
| ShareService.Stamp | src/services/shareService.js:43-52 | A stored message keeps its role and content. It keeps its timestamp when that is present and non-empty, and otherwise takes the current time. |
| ShareService.CreateShareData | src/services/shareService.js:37-68 | A new share has the given id. Its message and each context message, in order and with the same count, keep their role and content and their timestamp, or take the current time when it is missing. It is public and includes context only when those options are `true`. Its type is the given type when that is non-empty and "link" otherwise. It records the creation time, the user agent and the page URL, and has no views and no last view. |
| ShareService.MessagePreview | src/services/shareService.js:318-335 | Missing, non-string or empty content previews as "无内容". Cleaned text that fits is returned unchanged. Longer text is cut to `maxLength` characters plus "...", for a length of `maxLength + 3`. |
| ShareProperties.PreviewBounded | src/services/shareService.js:318-335 | A preview is never longer than the limit plus the ellipsis. Without the ellipsis, it is a prefix of the cleaned content. |
| ShareService.HistoryItemOf | src/services/shareService.js:262-269 | A history entry carries its share's id, views, type, access and creation time, and the preview of its message at the default length of 100. |
| ShareService.UpdateShareHistory | src/services/shareService.js:258-282 | The new entry goes first and the older entries follow in their order. At most 50 entries are kept. |
| ShareService.SaveShareData | src/services/shareService.js:75-99 | The share is appended last, after the most recent earlier shares in order. At most 100 shares are kept, and nothing is dropped while there is room. The history records the share. |
| ShareService.FindIndex | src/services/shareService.js:147 | `findIndex` finds the first share with the id, or reports that no share has it. |
| ShareService.UpdateShareData | src/services/shareService.js:144-160 | The result is true exactly when some share has the id. Then the first such share is replaced and every other index is unchanged; otherwise the list is unchanged. |
| ShareService.Viewed | src/services/shareService.js:113-114 | A view adds exactly one to the count and records the time, and changes nothing else about the share. |
| ShareService.GetShareData | src/services/shareService.js:106-123 | An unknown id returns nothing and changes nothing. Otherwise the first share with the id is returned with one more view, recorded at the lookup's time, and stored back in its place. Every other share and the history are untouched. |
| ShareService.Without | src/services/shareService.js:170 | Filtering by id keeps exactly the entries with another id. |
| ShareService.RemoveFromShareHistory | src/services/shareService.js:302-310 | The history is filtered by the id: no remaining entry has it, every entry with another id is kept, and `ShareProperties.WithoutAppend` keeps them in their order. |
| ShareService.DeleteShareData | src/services/shareService.js:167-182 | Both lists are filtered by the id: neither keeps an entry with it, every entry with another id is kept, and `ShareProperties.WithoutAppend` keeps them in their order. |
| ShareProperties.WithoutAppend | src/services/shareService.js:170 | Filtering distributes over concatenation, so kept entries stay in their original order. |
| ShareProperties.WithoutNothingToRemove | src/services/shareService.js:170 | Filtering removes nothing when no entry has the id. |
| ShareProperties.DeleteIdempotent | src/services/shareService.js:167-182 | Deleting twice is deleting once. |
| ShareProperties.DeleteUndoesSave | src/services/shareService.js:75-99 | Deleting a share just saved under a fresh id, with room in both lists, restores the store exactly. |
| ShareProperties.SavedShareIsFound | src/services/shareService.js:75-123 | A share saved under an id no other share has is what a lookup of that id returns, with one view counted. |
| ShareProperties.CreatedShareFirstView | src/services/shareService.js:37-123 | A freshly created and saved share is shown, on its first lookup, with exactly one view, recorded at that lookup's time. |
| ShareProperties.FirstWithIdUnique | src/services/shareService.js:109 | Only one index holds the first share with an id. |
| ShareProperties.UpdateIsSeen | src/services/shareService.js:106-160 | After an update that replaced a share, looking up its id returns the update with one more view. |
| ShareProperties.ViewsCountLookups | src/services/shareService.js:106-118 | After `n` lookups of a stored id, its share has exactly `n` more views and the last lookup's time. Its position, its other fields and every other share are as before. |
| ShareProperties.LinkRoundTrip | src/services/shareService.js:189-191 | A generated link leads back to its share id. |
| ShareProperties.LinkInjective | src/services/shareService.js:189-191 | Distinct ids get distinct links. |
| ShareService.GenerateShareLink | src/services/shareService.js:189-191 | A link starts with the page address followed by `#/share/`. |
| ShareStats.GetShareStats | src/services/shareService.js:373-395 | `totalViews` is the sum of the shares' views, `publicShares` the number of public shares and `shareTypes` the per-type tally. Public and private shares add up to all shares, and private shares are never negative. The history count is the history length. Every type count is between one and the number of shares. |
| ShareStats.TallyKeys | src/services/shareService.js:382-386 | The tallied types are exactly the types of the shares, with "unknown" for an empty type. |
| ShareStats.TallyValues | src/services/shareService.js:382-386 | Each type's count is the number of shares of that type. |
| ShareStats.TallySumsToTotal | src/services/shareService.js:382-386 | The type counts add up to the number of shares. |
| ShareStats.StatsTypesSumToTotal | src/services/shareService.js:378-394 | The statistics' type counts add up to `totalShares`. |
| ShareStats.TotalViewsSnoc | src/services/shareService.js:379 | The view total of one more share is the old total plus its views. |
| ShareStats.SaveUpdatesStats | src/services/shareService.js:75-99 | Saving with room adds one share, its views, its public flag and its type to the statistics, and one history entry while the history has room. |
| ShareStats.TotalViewsReplace | src/services/shareService.js:379 | Replacing one share changes the view total by the difference in views. |
| ShareStats.LookupAddsOneView | src/services/shareService.js:106-118 | A successful lookup adds exactly one to the total views and changes no other statistic. A failed lookup changes none. |
| ShareStats.SameTallies | src/services/shareService.js:380-386 | Replacing a share by one with the same metadata keeps the public count and the type tally. |
| ShareStats.CountTypeSnoc | src/services/shareService.js:382-386 | One more share adds one to the count of its type only. |
| ShareStats.CountPublicSnoc | src/services/shareService.js:380 | One more share adds one to the public count exactly when it is public. |
| ShareStats.MapSumRemove | src/services/shareService.js:382-386 | A map's value sum does not depend on which key is taken out first. |

## Left out

- `fetch`, the `Authorization` and `Content-Type` headers, `response.json()`, the body reader and `TextDecoder`: network I/O. The transport becomes a `Transport` value with the status, what the error body reads as, the decoded chunks and how the body ended. The decoder's carrying of partial UTF-8 sequences across chunks belongs to the platform, so chunks arrive already decoded.
- `JSON.parse` and `JSON.stringify`: the payload parser is an abstract function from the payload text to an optional `Delta`. Non-string `content` or `reasoning_content` values count as absent.
- `ApiService.BuildRequest`: the system prompt comes from `src/config/configLoader.js`, which is not part of this model, so it is a parameter.
- `ApiService.SendMessageStream`: the selected model is read once per call. A `setModel` during an in-flight stream, which the source would see on the next line, is not modelled. Callbacks are assumed not to throw; in the source a throwing `onChunk` is swallowed as a parse warning and a throwing `onComplete` leads to `onError`.
- `ApiService.SendMessageStream`: the default message "抱歉，发生了错误。" (src/services/apiService.js:49) is always overwritten before use, so it never appears. An OK response without a body, which would throw and give the network-failure message, is not modelled.
- `ApiService.ClassifyFailure`: `response.ok` is taken as a status from 200 to 299, as the Fetch standard defines it.
- `ShareService.MessagePreview`: the `length` test and `substring(0, maxLength)` count `char`s, not UTF-16 code units. The two differ only for text outside the Basic Multilingual Plane, where the source may cut a surrogate pair in half.
- `localStorage` and the `try`/`catch` around it: the two keys are the store's two sequences, and storage never fails. So `saveShareData` and `deleteShareData` always succeed, and the `catch` fallbacks (`false`, `null`, empty lists, zero statistics) are not modelled.
- `generateShareId`, `new Date()`, `navigator.userAgent`, `window.location`: random and environment reads. They become the `id`, the `Env` (one `now` reading per call, as an ISO string) and the `baseUrl` parameters.
- `ShareService.MessagePreview`: the regular-expression Markdown clean-up chain (src/services/shareService.js:324-332) is the uninterpreted `clean` parameter. Only the truncation is modelled.
- `ShareStats.GetShareStats`: views are always numbers in the model, so the `views || 0` fallback when summing views (src/services/shareService.js:379) never applies. For the same reason `ShareService.GetShareData` does not model a share stored without a `views` number, which `views += 1` (src/services/shareService.js:113) would turn into `NaN`.
- `ShareStats.GetShareStats`: the tally is a `map`, whereas the source counts into a plain object `{}`. For a share type named like an `Object.prototype` member, the two disagree. With `"__proto__"` the source records no key at all. With `"constructor"` or `"toString"` it stores an inherited function's text with "1" appended. For such types, the model's counts, their bounds and `ShareStats.StatsTypesSumToTotal` do not describe the source.
- `formatMessageAsText`, `formatTimestamp` and `cleanupExpiredShares`: locale date formatting and clock arithmetic.
- `getAllShares` and `getShareHistory`: JSON reads of the two storage keys, which are the store's fields here.
- `console` logging: no effect on the state.
