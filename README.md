# A verified model of the summariser extension's streaming plumbing

This project models in Dafny the sequential logic inside a browser extension
that asks a chat backend for a summary and streams the answer to the page.
The answer is a Server-Sent-Events stream, decoded in the background
script. It reaches the page over two request/response protocols in turn:
a port from the background script to the content script, whose
`makeBackgroundRequest` is the request handler of the content script's
custom-event server, and document events from there to the page.

- **The SSE decoder** (`SSEParserStream.js`). The model has four modules, one
  per stage:
  - `SseLines`: the `LineBreakTransformer` class, which frames lines.
  - `SseGrouping`: the `EventLineGroupingTransformer` class, which groups
    lines at empty lines.
  - `SseFields`: `parseEventLine`, `filterUndefined` and `combineSseFields`.
  - `SseDecoder`: the whole pipeline over a finite sequence of text chunks.

  The two transformers are classes whose methods update the carried line and
  the current group in place. Each class is proved against a fold over the
  stream (`Feed`, `GroupLines`). The line grammar and field combination are
  functions.
- **The port protocol** (`BackgroundConnection.js`, module
  `BackgroundConnection`). It covers:
  - the client's connection flags and response stream;
  - `take`, as a loop over a readable queue;
  - `makeBackgroundRequest`, proved to read the port exactly as the
    specification function `Interpret` says;
  - the server of `runBackgroundScriptServer`, as a class whose methods
    follow a step function over abstract events: handler resolves, value
    yielded, stream completes, failure, client disconnect.
- **The multiplexed protocol** (module `CustomEventConnection`). It covers:
  - the `CustomEventClient` class, with its `responseHandlers` correlation
    map and the `writerAborted` flag of each fetch;
  - the server of `runCustomEventServer`, with its `abortControllers` map.

  `ContentScriptClient.js` holds a copy of the client class. Lines 1-51 of
  both files are identical apart from the export on line 1. So the client is
  modelled once, and rows below cite either file.
- **The background script's helpers** (`background.js`, module `Background`):
  - `deepMerge`, as nested loops proved equal to a recursive specification;
  - `generateUUID`, given its random nibbles;
  - the last stage of `requestHandler`, which parses each record's `data`
    and drops the records that do not parse.

`JsValues` holds the JavaScript values the protocols carry and `deepMerge`
walks. Plain objects are sequences of own properties in insertion order.

The model follows the code where the code and the intended design part ways:

- `previousChunkEndedWithCR` is never raised. So a `\r\n` split between two
  chunks counts as two terminators. The chunks `data: a\r` and
  `\ndata: b\n\n` decode to three records (`a`, `b`, and an empty one). The
  same text in a single chunk decodes to two records: `a\nb`, and an empty
  one. In both cases the empty record comes from the final empty line that
  `flush` enqueues, which closes an empty group.
- Empty groups still produce a record with empty `data`.
- No byte-order mark is stripped.

## Model

| member | source | states |
|---|---|---|
| `SseLines.TerminatorLength` | SSEParserStream.js:24 | a terminator is present exactly when the text starts with `\r` or `\n`, and it never runs past the text |
| `SseLines.Split` | SSEParserStream.js:24 | `split` always returns at least one piece, so `lines.pop()` always has a carried line to take |
| `SseLines.SplitNoBreaks` | SSEParserStream.js:23-26 | no piece of a split holds `\r` or `\n` |
| `SseLines.SplitCount` | SSEParserStream.js:24 | a split gives one piece more than there are terminators, with `\r\n` counted once |
| `SseLines.SplitKeepsText` | SSEParserStream.js:23-25 | the pieces written one after another are the text with its terminators removed |
| `SseLines.SplitJoin` | SSEParserStream.js:24 | splitting undoes `join('\n')` for lines without terminators |
| `SseLines.SplitAppend` | SSEParserStream.js:23-25 | splitting `s + t` in one go equals splitting `s`, keeping its last piece, and splitting that piece with `t`, unless `s` ends in `\r` and `t` starts with `\n` |
| `SseLines.FeedStep` | SSEParserStream.js:23-25 | one more chunk re-splits the carried line followed by the chunk and keeps every finished line |
| `SseLines.Feed` | SSEParserStream.js:16-31 | every stream of chunks leaves at least one line, the one `flush` enqueues |
| `SseLines.FeedNoBreaks` | SSEParserStream.js:23-31 | no line the stage enqueues holds `\r` or `\n`, for any chunking |
| `SseLines.FeedKeepsText` | SSEParserStream.js:16-31 | for any chunking, the enqueued lines written one after another are the whole input with every `\r` and `\n` removed |
| `SseLines.FeedTransparent` | SSEParserStream.js:16-27 | when no `\r\n` is split between two chunks, the lines are those of the whole text split at once |
| `SseLines.SplitCrlfAddsEmptyLine` | SSEParserStream.js:13-27 | the chunks `a\r` and `\nb` give `a`, an empty line and `b`, while the same text in one chunk gives `a` and `b` |
| `SseLines.LineBreakTransformer.constructor` | SSEParserStream.js:11-14 | starts with an empty carried line, the flag down, and no chunk seen |
| `SseLines.LineBreakTransformer.Transform` | SSEParserStream.js:16-27 | the enqueued lines plus the new carried line are the split of the old carried line followed by the chunk; neither holds a terminator; everything enqueued so far plus the carried line equals `Feed` of the chunks so far |
| `SseLines.LineBreakTransformer.Flush` | SSEParserStream.js:29-31 | enqueues the carried line exactly once, even when it is empty, completing `Feed` of the chunks |
| `SseGrouping.GroupCount` | SSEParserStream.js:39-52 | exactly one group is emitted per empty line |
| `SseGrouping.GroupsKeepLines` | SSEParserStream.js:39-46 | the emitted groups followed by the pending group hold exactly the non-empty lines, in arrival order |
| `SseGrouping.GroupsHaveNoEmptyLine` | SSEParserStream.js:39-46 | no group, emitted or pending, holds an empty line |
| `SseGrouping.PendingIsTail` | SSEParserStream.js:48-52 | the pending group, the one dropped at the end, is exactly what follows the last empty line |
| `SseGrouping.NoBlankNoGroup` | SSEParserStream.js:39-52 | without an empty line nothing is emitted and every line stays pending |
| `SseGrouping.GroupStep` | SSEParserStream.js:39-46 | one line never alters the groups already emitted and adds at most one; `GroupLinesStep`, `GroupCount` and `GroupsKeepLines` give the fold its meaning |
| `SseGrouping.GroupLines` | SSEParserStream.js:39-52 | a stream of lines emits at most one group per line; `GroupCount` sharpens this to one group per empty line |
| `SseGrouping.GroupLinesStep` | SSEParserStream.js:39-46 | the grouping of a stream is one `transform` step per line |
| `SseGrouping.EventLineGroupingTransformer.Start` | SSEParserStream.js:35-37 | starts with an empty current group and nothing emitted |
| `SseGrouping.EventLineGroupingTransformer.Transform` | SSEParserStream.js:39-46 | an empty line emits the current group, even `[]`, and resets it; any other line is appended to it; the state stays the fold of all lines seen |
| `SseGrouping.EventLineGroupingTransformer.Flush` | SSEParserStream.js:48-52 | enqueues nothing, so all it has emitted is the groups closed by an empty line |
| `SseFields.ParseEventLine` | SSEParserStream.js:67-72 | a comment is non-empty and holds no line terminator; a key is non-empty and holds no `:`; a value holds no line terminator, because `.*` must reach the end; `ParseTotal` says when it fails |
| `SseFields.TakeLine` | SSEParserStream.js:68 | `.*` takes the longest prefix without a line terminator, stopping just before the first one |
| `SseFields.KeyEnd` | SSEParserStream.js:68 | `[^:]+` runs to the first `:` at or after its start, or to the end |
| `SseFields.FirstMatch` | SSEParserStream.js:68 | the pattern's second alternative matches at the leftmost position where it can, and nowhere before |
| `SseFields.StripOneSpace` | SSEParserStream.js:68 | `: ?` drops at most one leading space from the value |
| `SseFields.ParseTotal` | SSEParserStream.js:67-72 | the pattern fails, and reading `.groups` throws, exactly for the empty line |
| `SseFields.ParseFieldLine` | SSEParserStream.js:68-70 | a line not starting with `:` whose value has no terminator splits at its first `:` |
| `SseFields.ParseComment` | SSEParserStream.js:68-69 | `:c` with a non-empty `c` is the comment `c` |
| `SseFields.ParseBareColon` | SSEParserStream.js:68-70 | a bare `:` has a falsy comment and reads as a field with no key and value `''` |
| `SseFields.ParseKeyOnly` | SSEParserStream.js:68-70 | a line without `:` is a key with the value `''` |
| `SseFields.ParseKeyValue` | SSEParserStream.js:68-70 | `key:rest` splits at the first `:` and drops at most one leading space, so `key: v` parses back to `key` and `v` |
| `SseFields.KeyCapture` | SSEParserStream.js:68 | where the second alternative matches, the `key` capture is non-empty and free of `:` |
| `SseFields.ValueCapture` | SSEParserStream.js:68 | after the `:`, the `value` capture reaches the end of the line, so it holds no line terminator |
| `SseFields.ParseLineSeparatorInValue` | SSEParserStream.js:68 | a U+2028 in the value stops `.*`, so the match moves past the `:` and the whole tail becomes the key |
| `SseFields.ParseFieldExample` | SSEParserStream.js:68-70 | `key: value` parses to that key and value |
| `SseFields.ParseAllOf` | SSEParserStream.js:6 | `lines.map(parseEventLine)` is the line-by-line parse |
| `SseFields.ParseExampleGroup` | SSEParserStream.js:6 | the lines `id: 1`, `event: foo`, `data: x`, `data: y` parse to their four fields |
| `SseFields.FilterUndefined` | SSEParserStream.js:87-93 | never longer than its input; `FilterMembers` and `LookupFiltered` say exactly which properties stay |
| `SseFields.FilterMembers` | SSEParserStream.js:87-93 | `filterUndefined` keeps exactly the properties whose value is not `undefined`, and adds none |
| `SseFields.FilterCons` | SSEParserStream.js:89-90 | the loop handles properties one by one, in order |
| `SseFields.FilterFour` | SSEParserStream.js:87-93 | for the four properties of a record: `data` always stays and the others stay only when defined, in `id`, `type`, `data`, `retry` order |
| `SseFields.LookupFiltered` | SSEParserStream.js:87-93 | reading a name after filtering reads the original property, with `undefined` for a dropped one |
| `SseFields.Lookup` | background.js:16 | a found value is stored under the name; no value means no property has the name |
| `SseFields.Values` | SSEParserStream.js:99 | `.map(f => f.value)` keeps length and takes each field's value |
| `SseFields.WhereNone` | SSEParserStream.js:97-100 | `filter` gives nothing exactly when no element passes |
| `SseFields.LastWhere` | SSEParserStream.js:97-100 | `.at(-1)` of the filtered list is the last element that passes the filter |
| `SseFields.WhereSnoc` | SSEParserStream.js:97-100 | filtering one more element appends it exactly when it passes |
| `SseFields.SseFieldsObject` | SSEParserStream.js:96-101 | the object literal holds distinct names |
| `SseFields.CombineSseFields` | SSEParserStream.js:95-102 | a record has at most four properties; `CombinedLookup`, `CombinedKeys` and `CombinedData` give each property's value |
| `SseFields.CombinedLookup` | SSEParserStream.js:95-102 | the record holds, under each of its four names, the value the corresponding `filter` expression computes |
| `SseFields.CombinedKeys` | SSEParserStream.js:95-102 | a record has between one and four properties, always `data`, each named `id`, `type`, `data` or `retry` |
| `SseFields.CombinedData` | SSEParserStream.js:99 | `data` is always present and is the `data` values joined by `\n`, in order |
| `SseFields.LastValueWhere` | SSEParserStream.js:97-100 | a "last passing field" property is absent exactly when no field passes, and otherwise holds the value of the last one that does |
| `SseFields.CombinedId` | SSEParserStream.js:97 | `id` is the value of the last `id` field without a NUL, and absent when there is none |
| `SseFields.CombinedType` | SSEParserStream.js:98 | `type` is the value of the last `event` field, and absent when there is none |
| `SseFields.CombinedRetry` | SSEParserStream.js:100 | `retry` is the value of the last `retry` field made only of digits, and absent when there is none |
| `SseFields.ExampleProperties` | SSEParserStream.js:95-102 | the example fields give `id` `1`, `type` `foo`, `data` `x\ny` and an undefined `retry` |
| `SseFields.CombineExample` | SSEParserStream.js:95-102 | the group `id: 1`, `event: foo`, `data: x`, `data: y` yields exactly `{id: '1', type: 'foo', data: 'x\ny'}` |
| `SseFields.NulIdProperties` | SSEParserStream.js:97 | with a NUL in the only `id` value, `id` stays undefined |
| `SseFields.NulIdExample` | SSEParserStream.js:97 | the group `id: a\0b`, `data: z` yields exactly `{data: 'z'}` |
| `SseDecoder.DecodeGroup` | SSEParserStream.js:6-7 | every record of a group has a `data` property, whatever the group holds |
| `SseDecoder.StreamGroups` | SSEParserStream.js:1-8 | no group that reaches the mapping stage holds an empty line |
| `SseDecoder.ParsingNeverFails` | SSEParserStream.js:55-68 | every line reaching `parseEventLine` matches the pattern, so the mapping stage never takes its error path |
| `SseDecoder.DecodeCount` | SSEParserStream.js:39-46 | there is one record per empty line of the stream, and each record has `data` |
| `SseDecoder.DecodeTransparent` | SSEParserStream.js:16-27 | when no `\r\n` is split between chunks, decoding chunk by chunk equals decoding the whole text at once |
| `SseDecoder.TrailingGroupDropped` | SSEParserStream.js:48-52 | lines never followed by an empty line produce no record |
| `SseDecoder.OrphanLine` | SSEParserStream.js:48-52 | a single line with no terminator produces nothing |
| `SseDecoder.OrphanExample` | SSEParserStream.js:48-52 | `data: orphan` without a blank line produces no record |
| `SseDecoder.FeedSplitCrlf` | SSEParserStream.js:13-27 | the chunks `x\r` and `\ny\n\n` give the lines `x`, empty, `y`, empty, empty |
| `SseDecoder.GroupSplitCrlf` | SSEParserStream.js:39-46 | those lines form the groups `[x]`, `[y]` and the empty group |
| `SseDecoder.DecodeDataLine` | SSEParserStream.js:95-102 | a group of the one line `data: v` yields `{data: v}` |
| `SseDecoder.DecodeEmptyGroup` | SSEParserStream.js:40-42 | an empty group still yields a record, with empty `data` |
| `SseDecoder.SplitCrlfRecords` | SSEParserStream.js:13-27 | a `\r\n` split after `data: x` and before `data: y` yields three records: `x`, `y` and an empty one |
| `SseDecoder.SplitCrlfExample` | SSEParserStream.js:13-27 | the chunks `data: a\r` and `\ndata: b\n\n` yield three records: `a`, `b` and an empty one |
| `SseDecoder.DecodeTwoDataLines` | SSEParserStream.js:95-102 | a group of the lines `data: x` and `data: y` yields exactly `{data: x\ny}` |
| `SseDecoder.OneChunkRecords` | SSEParserStream.js:16-52 | the split-`\r\n` text in a single chunk yields two records: the two `data` values joined by `\n`, then an empty one |
| `SseDecoder.OneChunkExample` | SSEParserStream.js:16-52 | `data: a\r\ndata: b\n\n` in one chunk yields `{data: 'a\nb'}` and `{data: ''}` |
| `JsValues.Get` | background.js:81 | reading a name the object lacks gives `undefined` |
| `JsValues.Put` | background.js:81-82 | assignment stores the value under the name, keeps the place of an existing name, appends a new one last, and leaves every other name as it was |
| `JsValues.PutDistinct` | background.js:81-82 | assignment never duplicates a name |
| `JsValues.ChildBelow` | background.js:76 | objects are acyclic: a property value is strictly lower than the object holding it |
| `Background.MergeAll` | background.js:77-86 | the merge output is no higher than the highest argument, which bounds the recursion |
| `Background.Into` | background.js:80-84 | the inner loop's output is no higher than the higher of the output and the object visited; `IntoKeys` and `IntoGet` give its names and values |
| `Background.MergeProperty` | background.js:81-82 | the loop body's output is at most one above the value stored; `PropertyGet`, `PropertyKeys` and `PropertyNew` give its effect |
| `Background.MergedValue` | background.js:81-82 | the value a name receives is no higher than the higher of the existing and incoming values |
| `Background.DeepMerge` | background.js:77-86 | the two nested loops, with the recursive call for a truthy existing value, compute `MergeAll` of the arguments |
| `Background.PropertyGet` | background.js:81-82 | the loop body changes only the name it visits: incoming value over a falsy one, deep merge over a truthy one |
| `Background.PropertyKeys` | background.js:81-82 | the loop body adds at most the name it visits |
| `Background.PropertyNew` | background.js:81 | a name not yet in the output is appended with the incoming value |
| `Background.IntoKeys` | background.js:80-84 | after visiting properties of `o`, the output's names are its earlier names plus the visited ones |
| `Background.IntoGet` | background.js:80-84 | after visiting properties of `o`, each name holds its old value, or the merge with `o`'s value once that property has been visited |
| `Background.IntoEmptyCopies` | background.js:80-84 | visiting an object into an empty output copies it |
| `Background.CopyOne` | background.js:77-86 | `deepMerge(o)` has exactly `o`'s names and values, in order |
| `Background.MergeStep` | background.js:79-84 | a later argument that lacks a name keeps the earlier value; one that has it replaces a falsy earlier value and deep-merges a truthy one |
| `Background.MergeKeys` | background.js:77-86 | the output holds each name found in some argument exactly once, and no other |
| `Background.PairGet` | background.js:79-84 | `deepMerge(a, c)` under each name: `c`'s value merged over `a`'s when `c` has the name, else `a`'s |
| `Background.AuthedFields` | background.js:28-35 | `authedRequest` has distinct names `referrer` and `headers` |
| `Background.CompletionFields` | background.js:37-47 | `completionRequest` has distinct names `url`, `headers`, `method` and `body` |
| `Background.TwoShapes` | background.js:68-72 | merging the two request shapes merges their `headers` objects and copies every other option |
| `Background.ThreeShapes` | background.js:68-72 | merging in `{ signal }` adds the signal and changes nothing else |
| `Background.HeadersShape` | background.js:82 | the merged `headers` hold the first object's header and then the second one's two, in order |
| `Background.SummaryRequestOptions` | background.js:67-74 | `fetchSummary`'s options: `headers` with `Authorization`, `Accept` and `Content-Type`, together with the url, method, body, referrer and signal |
| `Background.Fill` | background.js:89-93 | `replace` keeps the template's length; `FillKeeps`, `FillHex`, `FillVariant` and `FillEqual` say what each position holds |
| `Background.GenerateUuid` | background.js:88-94 | the identifier has 36 characters; `UuidFormat` and `UuidInjective` give its layout and how it depends on the nibbles |
| `Background.UuidPlaceholders` | background.js:89 | the template has 31 placeholders, one per nibble drawn |
| `Background.UuidFormat` | background.js:88-94 | the identifier has 36 characters, `-` at 8, 13, 18 and 23, `4` at 14, one of `89ab` at 19, and a lower-case hex digit at every `x` |
| `Background.FillKeeps` | background.js:89 | a character that is not a placeholder is kept |
| `Background.FillHex` | background.js:90-92 | an `x` becomes a lower-case hex digit |
| `Background.FillVariant` | background.js:91-92 | a `y` becomes `8`, `9`, `a` or `b` |
| `Background.HexRoundTrip` | background.js:92 | `toString(16)` of a nibble is a lower-case hex digit that reads back as the nibble |
| `Background.Variant` | background.js:91 | the variant nibble lies in `[8, 12)` |
| `Background.VariantIsBitwise` | background.js:91 | `8 + r % 4` equals `r & 0x3 \| 0x8` for every nibble |
| `Background.ReplacementAgree` | background.js:89-93 | the digits for one placeholder are equal exactly when the nibbles agree: all four bits for an `x`, the low two for a `y` |
| `Background.FillEqual` | background.js:89-93 | two fillings of a template are equal exactly when the nibbles agree at every placeholder |
| `Background.UuidVariantSlot` | background.js:89 | the template's only `y` is at index 19, the 16th placeholder |
| `Background.UuidInjective` | background.js:88-94 | two identifiers are equal exactly when their nibbles are equal, except the two bits the variant digit drops |
| `Background.ParsedData` | background.js:13-18 | the stage never yields more values than there are records |
| `Background.Forwarded` | background.js:14-17 | a record yields at most one value |
| `Background.ParsedDataAppend` | background.js:13-18 | the stage works record by record, so it commutes with concatenation |
| `Background.ParsedDataOne` | background.js:14-17 | a record is forwarded exactly when its `data` parses, and then as the parsed value; otherwise it is dropped silently |
| `Background.ParsedDataAll` | background.js:13-18 | when every record's `data` parses, every record is forwarded, in order |
| `Background.HandlerValues` | background.js:6-20 | the handler yields at most one value per empty line of the response body |
| `Background.Relayed` | CustomEventConnection.js:70-83 | the content script's server, with `makeBackgroundRequest` as its handler (content.js:5), sends one `response` per streamed value and then one terminal message, `close` exactly when the background stream ended cleanly, all under the request's id |
| `Background.RelayedDelivery` | CustomEventConnection.js:17-83 | the page's fetch receives exactly the streamed values; its writer closes after a clean end and errors with the rejection or stream error otherwise; it sends one `abort` back only after `close` |
| `Background.EndToEnd` | background.js:4-20 | a request served to the end, over both protocols in turn: the content script's background request streams exactly the handler's values and ends cleanly, and the page's fetch receives those values in order with its writer closed |
| `BackgroundConnection.Readable.constructor` | BackgroundConnection.js:14-16 | the response stream starts open and empty |
| `BackgroundConnection.Readable.Write` | BackgroundConnection.js:17 | a write while open is queued after the earlier ones; otherwise nothing changes |
| `BackgroundConnection.Readable.Close` | BackgroundConnection.js:28 | closing keeps the queued chunks readable |
| `BackgroundConnection.Readable.Abort` | BackgroundConnection.js:34 | aborting an open stream errors it with the reason and drops its queue; a settled stream is unchanged |
| `BackgroundConnection.Readable.Read` | BackgroundConnection.js:44 | a read takes the oldest chunk, else reports done, the error, or a wait |
| `BackgroundConnection.Take` | BackgroundConnection.js:39-52 | `take(n, r)` returns the first `min(n, len)` chunks in order and stops at done; it throws the stream's error only when it needs more than was queued |
| `BackgroundConnection.ClientConnection.constructor` | BackgroundConnection.js:4-17 | a new connection is live, with nothing posted and an empty open response stream |
| `BackgroundConnection.ClientConnection.Send` | BackgroundConnection.js:8-12 | the request is posted exactly when the port is live |
| `BackgroundConnection.ClientConnection.OnMessage` | BackgroundConnection.js:17 | every message of a live port is queued in order, none lost |
| `BackgroundConnection.ClientConnection.OnDisconnect` | BackgroundConnection.js:26-30 | a background disconnect closes the response stream cleanly and keeps its queue |
| `BackgroundConnection.ClientConnection.OnAbort` | BackgroundConnection.js:32-35 | an abort disconnects the port only if the background has not, and errors the response stream unless it is already closed |
| `BackgroundConnection.Connect` | BackgroundConnection.js:4-6 | an already-aborted signal throws its reason before a port is opened; otherwise a fresh live connection |
| `BackgroundConnection.Pipe` | BackgroundConnection.js:72-88 | at most one value per message after the first; `PipeMessages` says which |
| `BackgroundConnection.Interpret` | BackgroundConnection.js:60-88 | a stream has fewer values than the port delivered messages, since the first one only opens it; `FirstMessage`, `NothingReceived` and `PipeMessages` give its cases |
| `BackgroundConnection.MakeBackgroundRequest` | BackgroundConnection.js:54-89 | the client reads the port exactly as `Interpret` says: the first message decides, then payloads stream until `error`, an invalid message or the end |
| `BackgroundConnection.FirstMessage` | BackgroundConnection.js:60-71 | only `stream-start` leads to a stream; `error` rejects with its payload; any other type rejects as unexpected |
| `BackgroundConnection.NothingReceived` | BackgroundConnection.js:60-63 | a port closed with nothing on it rejects with the "disconnected before receiving any messages" error |
| `BackgroundConnection.StreamStops` | BackgroundConnection.js:72-88 | after `stream-start` and some values, the first message that is not a `stream-message` ends the stream whatever follows: an `error` with its payload, any other type with the "Invalid message type" record |
| `BackgroundConnection.PipeMessages` | BackgroundConnection.js:72-88 | `stream-message` payloads come out in order, followed by whatever the rest of the port gives |
| `BackgroundConnection.Failure` | BackgroundConnection.js:108-115 | the signal always ends aborted, keeping a reason set earlier |
| `BackgroundConnection.Post` | BackgroundConnection.js:104-110 | a post never retracts a message and adds at most one |
| `BackgroundConnection.Step` | BackgroundConnection.js:92-116 | no event retracts a posted message, and each posts at most one |
| `BackgroundConnection.RunFrom` | BackgroundConnection.js:102-115 | over any events, the posted messages only grow, by at most one per event |
| `BackgroundConnection.PortServer.constructor` | BackgroundConnection.js:92-101 | the server starts awaiting the handler, with nothing posted and the signal not aborted |
| `BackgroundConnection.PortServer.HandlerFailed` | BackgroundConnection.js:108-115 | on failure: the signal is aborted unless it already was; `error` is posted and the port disconnected unless the client has gone; the error is rethrown |
| `BackgroundConnection.PortServer.PostMessage` | BackgroundConnection.js:104-110 | a post reaches a connected client; to a disconnected one it throws and the failure path runs |
| `BackgroundConnection.PortServer.HandlerResolved` | BackgroundConnection.js:103-104 | `stream-start` is posted only once the handler has resolved |
| `BackgroundConnection.PortServer.StreamYielded` | BackgroundConnection.js:105-107 | each value yielded posts one `stream-message` |
| `BackgroundConnection.PortServer.Pump` | BackgroundConnection.js:105-107 | the loop posts the values in order, as the step function does for the same events |
| `BackgroundConnection.PortServer.StreamCompleted` | BackgroundConnection.js:112-115 | a finished stream sends no closing message; the port is disconnected instead, unless the client already went |
| `BackgroundConnection.PortServer.OnClientDisconnect` | BackgroundConnection.js:96-101 | a client disconnect sets the flag and aborts the handler's signal with `'port disconnected'` |
| `BackgroundConnection.FinishedIsFinal` | BackgroundConnection.js:102-116 | once the handler run is over, no later event changes anything |
| `BackgroundConnection.SilentAfterDisconnect` | BackgroundConnection.js:110-114 | nothing is posted and the port is left alone once the client has disconnected |
| `BackgroundConnection.StreamingPosts` | BackgroundConnection.js:105-107 | while the client stays, each value becomes one `stream-message`, in production order |
| `BackgroundConnection.RejectedHandler` | BackgroundConnection.js:103-110 | a handler that rejects before resolving gets `error` and never `stream-start`; the signal is aborted with the error and the port closed |
| `BackgroundConnection.FailedRun` | BackgroundConnection.js:102-115 | a stream that throws `e`: `stream-start`, one `stream-message` per value, then `error`; the port is closed, the signal aborted with `e`, and `e` rethrown |
| `BackgroundConnection.CompletedExchange` | BackgroundConnection.js:102-115 | a completed stream posts `stream-start` and then the values, and disconnects; the client reads exactly those values and a clean end |
| `BackgroundConnection.FailedExchange` | BackgroundConnection.js:102-115 | a stream that throws posts the values and then `error`; the client's stream errors with that error after the values |
| `BackgroundConnection.RejectedExchange` | BackgroundConnection.js:103-110 | a handler rejection reaches the client as the rejection of its request |
| `BackgroundConnection.DisconnectedExchange` | BackgroundConnection.js:96-114 | after a client disconnect nothing more is posted, the signal keeps `'port disconnected'`, and the server leaves the port alone |
| `BackgroundConnection.AbortKept` | BackgroundConnection.js:109 | once aborted, the signal's reason never changes |
| `CustomEventConnection.EventNamesDiffer` | CustomEventConnection.js:55-56 | the request and response event names differ, so neither side hears its own messages |
| `CustomEventConnection.Settle` | CustomEventConnection.js:24-29 | settling the writer sends at most one message; `SettleOnce` says when |
| `CustomEventConnection.Handle` | ContentScriptClient.js:30-47 | a response handler keeps the fetch's id and the flag's consistency with its writer |
| `CustomEventConnection.Cancel` | CustomEventConnection.js:22-29 | a reader cancel keeps the fetch's id and the flag's consistency with its writer |
| `CustomEventConnection.SettleOnce` | ContentScriptClient.js:24-29 | an `abort` goes out only from the step that settles the writer: on `close` or a reader cancel, never after `error` |
| `CustomEventConnection.AtMostOneAbort` | CustomEventConnection.js:24-47 | whatever arrives, one fetch sends at most one `abort`, carrying its own id |
| `CustomEventConnection.OneTerminal` | CustomEventConnection.js:70-83 | exactly one terminal message per request, and it comes last; every message carries the request's id |
| `CustomEventConnection.Deliver` | ContentScriptClient.js:30-47 | a fetch over any events keeps its id; `AtMostOneAbort`, `DeliverResponses` and `RoundTrip` give what it receives and sends |
| `CustomEventConnection.DeliverResponses` | CustomEventConnection.js:41-43 | server responses reach the fetch's stream in order |
| `CustomEventConnection.RoundTrip` | CustomEventConnection.js:17-83 | a fetch fed the server's whole emission receives exactly the handler's values; it sends one `abort` back after `close` and none after `error` |
| `CustomEventConnection.CustomEventClient.constructor` | ContentScriptClient.js:2-9 | the client starts with no handler, no fetch and nothing sent |
| `CustomEventConnection.CustomEventClient.Fetch` | CustomEventConnection.js:17-50 | the handler is registered under the id, below 2^32, before the `request` is sent; a repeated id takes the entry over |
| `CustomEventConnection.CustomEventClient.Dispatch` | ContentScriptClient.js:6-47 | a message reaches only the fetch registered under its id, and every other fetch is unchanged; with no entry the listener throws and nothing changes; only `close` deletes the entry |
| `CustomEventConnection.CustomEventClient.CancelReader` | CustomEventConnection.js:22-29 | a cancelled reader errors its writer, and tells the server unless a server `error` came first |
| `CustomEventConnection.CustomEventServer.constructor` | CustomEventConnection.js:54-57 | the server listens on the request name, answers on the response name, and starts with no controller |
| `CustomEventConnection.CustomEventServer.HandleAbort` | CustomEventConnection.js:66-69 | `abort` aborts and deletes the entry when there is one; an unknown id changes nothing |
| `CustomEventConnection.CustomEventServer.BeginRequest` | CustomEventConnection.js:70-72 | a request registers a fresh controller under its id |
| `CustomEventConnection.CustomEventServer.SendResponse` | CustomEventConnection.js:74-76 | each value is sent as a `response` without looking at the abort state |
| `CustomEventConnection.CustomEventServer.FinishRequest` | CustomEventConnection.js:77-82 | the request ends with `close`, or with `error` after aborting the controller unless it already was; then the entry is deleted |
| `CustomEventConnection.CustomEventServer.ServeRequest` | CustomEventConnection.js:70-83 | a request served without interruption sends exactly its emission and leaves no entry |
| `CustomEventConnection.CustomEventServer.OnClientMessage` | CustomEventConnection.js:58-87 | `abort` and `request` are handled as above; any other type is only logged, with the maps unchanged |

## Left out

- Text decoding (`TextDecoderStream`) and stream piping (`composeTransformStreams`) are not modelled. The decoder's input is a finite sequence of text chunks.
- The mapping stage's error path is not modelled as an operation. `SseDecoder.ParsingNeverFails` shows that no line reaching it can fail.
- Browser runtime objects are replaced by explicit events and state: ports, document events, stream buffering and backpressure, and abort-signal timing. The order in which promises and listeners interleave is not modelled either. Each protocol is a sequence of discrete steps.
- `fetch`, `fetchOpenAIKey` and the `content-type` check on a live response are network calls and are left out. The response body is a parameter, given as text chunks. So are the access token and the serialised request body.
- `JSON.parse` is a parameter: a partial function from text to a value.
- The prompt templates and `fetchSummaryPayload` are constant text. They are represented only by the request body string.
- `Math.random` is replaced by parameters: the 32-bit request id of a fetch, and the 31 nibbles of `generateUUID`.
- `Value` has no floating-point numbers, arrays or functions. Numbers are integers, and the abort signal is an opaque value.
- `JsValues.Get`: a name missing from an object reads as `undefined`. JavaScript would read a name that `Object.prototype` defines (`constructor`, `toString`, `valueOf`, `hasOwnProperty`, `__proto__` and the like) as the inherited, truthy member. So for such names `deepMerge` would take the recursive branch: `deepMerge({constructor: 1})` gives `{constructor: {}}`, and a `__proto__` key would set the prototype instead of a property. `Background.CopyOne`, `MergeStep`, `MergeKeys` and `PairGet` hold only for objects without such names. No name in the modelled requests is one of them.
- `JsValues.ForIn`: a `for...in` over a string or another non-object visits nothing. JavaScript would visit a string's indices. `deepMerge`'s recursive call (background.js:82) receives whatever truthy values collide under one name, not only objects; the source assumes there are no merge conflicts (background.js:76). In JavaScript, `deepMerge({h: {a: 1}}, {h: 'ab'})` gives `h` the properties `0`, `1` and `a`, where the model gives `{a: 1}`; two non-empty strings under one name recurse without end, because index `0` collides again at every level, where the model gives `{}`. So `Background.MergeStep`, `PairGet`, `TwoShapes` and `ThreeShapes` hold only when every pair of colliding truthy values are objects. In the modelled requests only `headers` collides, and both sides are objects.
- `JsValues.Put`: a new name always goes last. JavaScript lists integer-like names first, whatever order they were added in. No name in the modelled requests is integer-like.
- `JsValues.ForIn`: inherited enumerable properties are not visited. Plain object literals have none.
- `CustomEventConnection.Handle`: the `type` of a message is a string. A non-string type falls to the default branch, just like an unknown string.
- The `console.error` call of the client's default branch is not recorded. The server's logged messages are kept in `logged`.
- `Background.Forwarded`: the record's `data` is read through `SseFields.Lookup`, and `parse` stands for `JSON.parse` with its exception caught.
- `Background.GenerateUuid` takes exactly the 31 nibbles the template consumes. `Background.Drawn` returns 0 for a nibble past the end of the supplied list, a case that never arises there.
- `BackgroundConnection.Take`: only reads that what has already arrived can answer are modelled. The requires asks for `n` queued chunks, or a stream that is no longer open.
- `BackgroundConnection.MakeBackgroundRequest`: modelled once the port has delivered everything, as a stream that is closed or errored. Reads interleaved with later arrivals are not modelled.
- `BackgroundConnection.PortServer.PostMessage`: a post to a disconnected port is modelled as throwing at once, which runs the failure path. The model does not say when the browser reports that error.
- `CustomEventConnection.CustomEventClient.Dispatch`: the `TypeError` thrown for an id with no entry is modelled as the result `false` with no state change.
- The byte-order mark and the parts of event-stream interpretation that the code does not implement are not modelled. These include last-event-id tracking and applying `retry` to reconnection.
