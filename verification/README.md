# Telegram-to-FTP bridge: a Dafny model of its string logic

The bridge is a Telegram bot designed to receive a document, photo, video or audio and
stream it to an FTP server. It should then reply with a public download URL and a
"delete" button, and remove the file from the FTP server when that button is pressed.
As registered, a debug listener swallows every message before the file handler,
so the upload never happens (see Findings). The model covers the handler bodies as
written, and routes updates to them through a corrected chain.
Apart from network calls, its logic consists of small string computations written
inline in the two bot handlers of `index.js`. This project lifts each computation
into a pure Dafny function and proves what it does:

- `Normalizer`: picks the attachment to relay and its file name from an inbound
  message. It tests document, photo, video and audio in that order. It takes the
  last photo size, and synthesises `photo_<id>.jpg`, `video_<id>.mp4` or
  `audio_<id>.mp3` names.
- `Paths`: builds the FTP destination, `FTP_PATH/name` or `name`, which the upload
  and the delete handler compute alike. It also builds the public URL,
  `FTP_PUBLIC_URL/name` or `name`.
- `DeleteAction`: the callback data `delete_<name>` and the action trigger
  `/delete_(.+)/`. The trigger is modelled with JavaScript's real semantics: the
  leftmost position where the pattern matches, and a greedy capture of
  non-line-terminator characters.
- `Bridge`: the bodies of the file handler and the delete handler, as written.
  Each is a function of the message or callback data, the environment, and whether
  each network step succeeded. This module holds the round trip from upload to deletion.
- `Dispatch`: Telegraf's middleware chain, which decides which handler bodies run for
  an update. As registered, the debug listener takes every message and never calls
  `next()`, so the file handler body is never reached (see Findings). `OnUpdate`
  routes updates through the corrected chain.
- `JsValues` and `Wrappers`: JavaScript truthiness, `||`, the template-literal
  rendering of `undefined` as `"undefined"`, the ECMAScript line terminators, and
  `Option`.

JavaScript details the model keeps:

- An unset or empty environment variable is falsy. Both select the bare-name branch.
- A document without `file_name` has filename `undefined`. Templates render it as
  `"undefined"`. Without `FTP_PATH`, though, the upload destination is the value
  `undefined` itself.
- A video or audio name passes through `||`, so an empty name is also replaced.
- An empty photo array is truthy, so the photo branch runs. Reading `file_id` of
  `photos[-1]` then throws, and the handler's catch turns that into an error reply.

## Model

| member | source | states |
|---|---|---|
| Normalizer.Normalize | index.js:79-92 | "unsupported" exactly when the message has none of the four fields; the chosen field is present and every field tested before it is absent; the empty-photo failure happens exactly for an empty list with no document; photo, video and audio names are always defined and non-empty |
| Normalizer.DocumentTakenVerbatim | index.js:79-81 | a message with a document is relayed under the document's file id and its `file_name` as given, possibly undefined, with no fallback name |
| Normalizer.LaterFieldsIgnored | index.js:79-91 | two messages that agree on the chosen field and on all fields tested before it normalise identically, so a lower-priority field (e.g. a video beside a document) never affects the result |
| Normalizer.SynthesizedName | index.js:85-91 | a synthesised name is a six-character kind tag, the file id, and a four-character extension; documents never get one |
| Normalizer.SynthesizedNameInjective | index.js:85-91 | two synthesised names are equal only for the same kind and the same file id |
| Normalizer.PhotoUsesLastSize | index.js:82-85 | a photo without a document is relayed as the last size in the list, under the name `photo_<fileId>.jpg` |
| Normalizer.MediaNameOrFallback | index.js:86-91 | a video or audio keeps its file id; a truthy `file_name` is kept, otherwise the name is `video_<fileId>.mp4` or `audio_<fileId>.mp3` |
| JsValues.Render | index.js:110-116 | `${v}` gives the string itself when defined and `"undefined"` otherwise; only the empty string renders as empty text |
| JsValues.OrElse | index.js:88 | `name \|\| fallback` yields the name when it is defined and non-empty and the fallback otherwise; the result is non-empty iff one of the two is |
| Paths.JoinIfSet | index.js:45-47 | with a truthy prefix the result is prefix, `/`, rendered name; with an unset or empty prefix the name value passes through unchanged, `undefined` included |
| Paths.UploadDest | index.js:45-47 | with `FTP_PATH` set, the upload destination is a string that strips back to the rendered name; without it, it is the name value itself, possibly `undefined` |
| Paths.StripJoin | index.js:45-47 | stripping the same prefix from a joined path returns the rendered name: the destination determines the file name |
| Paths.EmptySettingIsUnset | index.js:45-47 | an empty `FTP_PATH` or `FTP_PUBLIC_URL` behaves exactly like an unset one |
| Paths.DeleteDest | index.js:138-140 | the delete handler's path for a name equals the upload destination for the same name and environment, and stripping `FTP_PATH/` from it gives the name back |
| Paths.PublicUrl | index.js:109-111 | the public URL is `FTP_PUBLIC_URL/` plus the rendered file name when that is set and the rendered name alone otherwise, so it always ends with the name |
| DeleteAction.Encode | index.js:116 | the callback data is the prefix `delete_` followed by the rendered file name |
| DeleteAction.RunLength | index.js:126 | the greedy `.+` consumes a run of non-terminators that ends at the end of the data or at a line terminator |
| DeleteAction.FindStart | index.js:126 | returns the leftmost position from which the unanchored pattern can match, and none when no such position exists |
| DeleteAction.Decode | index.js:126-127 | a result is the capture of the leftmost match of `/delete_(.+)/`; no result means the pattern matches nowhere |
| DeleteAction.CaptureUnique | index.js:126 | the greedy capture at a given position is unique |
| DeleteAction.LeftmostCaptureUnique | index.js:126-127 | the pattern has at most one leftmost capture, so `ctx.match[1]` is determined by the data |
| DeleteAction.DecodeEncode | index.js:116-127 | round trip: for a non-empty name without line terminators, decoding `delete_<name>` gives exactly the name |
| DeleteAction.EmptyNameNotMatched | index.js:116-126 | the button of an empty name carries `delete_`, which the trigger does not match |
| DeleteAction.UndefinedNameDecodes | index.js:116-127 | the button of an undefined name carries `delete_undefined` and decodes to `undefined` |
| DeleteAction.DecodeTruncatesAtTerminator | index.js:126-127 | a name that contains a line terminator after its first character decodes to its part before the first terminator, so the round trip fails |
| Bridge.HandleFile | index.js:76-122 | the handler body replies "unsupported" exactly for an unsupported message; it replies with an error and shows no delete button exactly on an empty photo list or a failed transfer, where a transfer that fails mid-stream may leave a partial file on the server; after an upload a failed success reply still gives an error reply, with the file on the server; otherwise the upload goes to the destination of the normalised name, the delete data is `delete_` plus the shown name, and the public URL is `FTP_PUBLIC_URL/` plus the shown name, or the name alone |
| Bridge.HandleDelete | index.js:126-150 | the handler runs exactly when the trigger matches; it works on the upload destination of the leftmost capture; it fails without removing exactly when the removal fails, reports an error after removing when only the edit fails, and succeeds otherwise |
| Bridge.DeleteRemovesUploadedPath | index.js:107-141 | the delete button of an upload whose shown name is non-empty and free of line terminators, and whose destination is a string, removes exactly the uploaded path |
| Bridge.SynthesizedNamesRoundTrip | index.js:82-141 | for a photo, video or audio whose name has no line terminator, the delete button removes exactly the uploaded path, with or without `FTP_PATH` |
| Bridge.EmptyDocumentNameNotDeletable | index.js:79-127 | a document whose `file_name` is empty is uploaded, but its delete button never triggers the delete handler |
| Dispatch.Run | index.js:63-126 | only handlers whose filter accepts the update run, no more of them than there are registrations; the first accepting handler always runs first, and if it does not call `next()` it is the only one that runs |
| Dispatch.FileHandlerUnreachable | index.js:63-75 | with the chain as registered, the file handler never runs; a file message that is not `/start` runs the debug listener alone |
| Dispatch.CorrectedReachesFileHandler | index.js:68-75 | when the debug listener passes messages on, a file message runs the debug listener and then the file handler |
| Dispatch.CallbacksReachDeleteHandler | index.js:126 | for callback queries both chains behave alike: the delete handler runs exactly when the data matches the trigger |
| Dispatch.OnUpdate | index.js:63-150 | with the corrected chain, an update reaches the file handler body or the delete handler body exactly when that handler runs; the file body then never answers "unsupported", and the delete body always handles the data |
| Bridge.UnnamedDocument | index.js:45-140 | a document without `file_name` is shown and deleted as `undefined`; with `FTP_PATH` both paths are `FTP_PATH/undefined`; without it the upload path is the value `undefined` while the delete path is the string `undefined` |

## Findings

| source | as written | input that shows it | evidently intended | confidence | as-written member | corrected member |
|---|---|---|---|---|---|---|
| index.js:68-72 | the debug listener `bot.on("message", …)` accepts every message and returns without calling `next()`, and it is registered before the file handler | any message with a document, photo, video or audio that is not `/start` | the listener logs and passes the message on, so the file handler at line 75 uploads it | medium (Telegraf's chain semantics as documented); not executed | Dispatch.FileHandlerUnreachable | Dispatch.CorrectedReachesFileHandler |

## Left out

- Network I/O is not modelled: `getFileLink`, the streaming axios download, the proxy agent, and the basic-ftp `access`, `uploadFrom`, `remove` and `close` calls. Each handler takes one boolean saying whether these steps succeeded. What the FTP library does with an `undefined` destination is not modelled either.
- The webhook deletion and `launch` sequence and the signal handlers are not modelled. These are framework glue. Of the registered handlers, only their filters and order are modelled, plus the two handler bodies. The `/start` greeting and the debug log line are not.
- The startup connectivity probe, dotenv loading and the Express keep-alive server are not modelled. They are process lifecycle and I/O.
- Reply texts and the inline keyboard are not modelled beyond the callback-data string. They are user-interface text.
- There is no artifact registry with opaque deletion keys, no retry with backoff, and no 12-hour expiry timer. This code has none of them: the delete button carries the file name itself, and each transfer is attempted once.
- There is no photo selection by pixel area and no voice-note support. The code takes the last photo size and ignores voice notes.
- There is no public URL built by stripping a storage-root prefix. The code prefixes `FTP_PUBLIC_URL` to the file name.
- Telegram's 64-byte limit on callback data is not computed. A long name makes Telegram reject the success reply, which the model covers only as `replyOk` being false.
- Bridge.HandleFile: `replyOk` covers only the success reply. A failure of the "unsupported" reply or of the error reply is not modelled, because the handler does not catch it.
- Strings are sequences of Unicode scalar values, whereas JavaScript uses UTF-16 code units. This does not change the regular expression's capture, because `.` without the `u` flag matches both halves of a surrogate pair.
