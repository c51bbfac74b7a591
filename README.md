# Secure chat: a verified model of the client managers and the relay

This project models the message-handling core of a small end-to-end encrypted chat. A Node.js
relay (`server.js`) registers every WebSocket connection under a guest id `Invité<N>`. It drops
oversized or malformed frames, stamps each accepted message with the sender's id and the time,
and fans it out to the other open clients. In the browser, five managers sit between the UI and
the wire:

- `CryptoManager` (`crypto.js`) holds one AES-GCM key per session. It encrypts under a fresh
  12-byte IV, fails closed on decryption, frames `IV ‖ ciphertext` as base64, and renders SHA-256
  digests as lower-case hex.
- `WebSocketManager` (`project/websocket.js`) runs the connection state machine. Reconnection
  uses bounded exponential backoff. Outbound messages wait in a FIFO queue while offline.
  Callbacks are registered per event, and inbound messages are dispatched by their `type` tag.
- `FileManager` (`files.js`) admits files by size, MIME whitelist and file-name safety. It looks
  up categories and icons, filters a selection and truncates it.
- `AudioManager` (`project/audio.js`) guards the voice recorder. It accumulates chunks, applies a
  one-second minimum when recording stops, picks a MIME type by priority, and decrypts received
  recordings.
- `project/config.js` holds the configuration tree. `getConfig` looks up a dotted path and
  `validateConfig` range-checks three settings.

Modules: `Common` (bytes, `Option`/`Result`, files, slicing, decimal printing), `JsValue` (the
JavaScript values frames and configuration are made of), `Base64` (`btoa`, and the forgiving
`atob` of the WHATWG HTML standard), `Hex`, `Crypto`, `Channel`, `Relay`, `Files`, `Audio` and
`Config`.

The stateful managers are classes whose fields the methods update. Each method's contract ties
the new state to specification functions, and lemmas state the properties of those functions.

What the model cannot see becomes an input:

- The browser's primitives form a `Crypto.Primitives` value: AES-GCM (NIST SP 800-38D),
  SHA-256 (FIPS 180-4), and UTF-8 encoding and decoding. The only laws assumed are these:
  opening under the same key and IV undoes sealing, decoding undoes encoding, and a digest has
  32 bytes.
- The random IV, the generated key, the outcome of `getUserMedia`, the answers of
  `MediaRecorder.isTypeSupported`, `Date.now()`, `process.env` and the result of `JSON.parse` are
  all parameters.
- Transport events (open, message, close, error, the reconnect timer, recorder events) are
  method calls.
- Everything written to a socket, every callback call, notification and timer is recorded in a
  sequence field, oldest first.

## Model

| member | source | states |
|---|---|---|
| Common.Prefix | crypto.js:194 | definition of `combined.slice(0, 12)`: the first min(n, \|s\|) elements, in order |
| Common.Suffix | crypto.js:195 | definition of `combined.slice(12)`: the elements from position 12 on, none when shorter |
| Common.NatToStringInjective | server.js:41 | different counter values print as different decimal strings |
| Base64.Encode | crypto.js:182 | definition of `btoa(String.fromCharCode(...b))`: the unpadded digits, then '=' to a whole group; `EncodeAlphabet` and `DecodeEncode` state its properties |
| Base64.Decode | crypto.js:192 | definition of `atob` read back as bytes: strip ASCII whitespace, then up to two '=', then decode; None for the InvalidCharacterError it throws |
| Base64.SextetRoundTrip | crypto.js:182 | each 6-bit value's alphabet character (section 4 of RFC 4648) reads back as that value |
| Base64.SextetValue | crypto.js:192 | a character of the alphabet stands for a value below 64 whose character it is |
| Base64.Group3RoundTrip | crypto.js:182 | a full group of three bytes encodes to four alphabet characters that decode to the same bytes |
| Base64.Group2RoundTrip | crypto.js:182 | a final group of two bytes encodes to three characters that decode to those bytes |
| Base64.Group1RoundTrip | crypto.js:182 | a final group of one byte encodes to two characters that decode to that byte |
| Base64.DigitsLength | crypto.js:182 | the unpadded digits of n bytes leave the remainder modulo 4 that the padding completes |
| Base64.DigitsRoundTrip | crypto.js:182 | decoding the unpadded digits gives the bytes back |
| Base64.StripPaddingOfDigits | crypto.js:192 | the decoder's removal of trailing '=' leaves exactly the digits the encoder produced |
| Base64.StripWhitespace | crypto.js:192 | the forgiving decoder's whitespace removal leaves no TAB, LF, FF, CR or SPACE |
| Base64.StripWhitespaceKeeps | crypto.js:192 | text made only of alphabet characters and '=' is left as it is by whitespace removal |
| Base64.EncodeAlphabet | crypto.js:182 | `btoa` output is whole groups of four characters, each an alphabet character or '=' |
| Base64.DecodeEncode | crypto.js:182-192 | `atob(btoa(x))` gives back every byte sequence |
| Hex.ByteHexNibbles | crypto.js:163 | `b.toString(16).padStart(2, '0')` is the high nibble's digit then the low nibble's |
| Hex.HexStringRoundTrip | crypto.js:161-165 | the joined hex has two lower-case hex digits per byte and parses back to the bytes |
| Crypto.Serialize | crypto.js:178-182 | definition of `serializeEncrypted`: the base64 text of the IV followed by the ciphertext; `SerializeLayout` states its layout |
| Crypto.Deserialize | crypto.js:190-197 | definition of `deserializeEncrypted`: the first 12 decoded bytes as IV and the rest as ciphertext, None where `atob` throws; `DeserializeSplit` states the split |
| Crypto.HashHex | crypto.js:156-170 | definition of `generateHash`: the hex text of the SHA-256 digest of the UTF-8 bytes; `HashShape` states its shape |
| Crypto.CryptoManager.constructor | crypto.js:7-10 | a new manager holds no key and its flag is false |
| Crypto.CryptoManager.GenerateKey | crypto.js:15-32 | success installs the key and sets the flag; failure returns false and changes nothing |
| Crypto.CryptoManager.Encrypt | crypto.js:39-70 | throws exactly while no key is held; otherwise returns the fresh 12-byte IV beside the ciphertext of the UTF-8 text or of the raw bytes |
| Crypto.CryptoManager.Decrypt | crypto.js:78-100 | throws exactly while no key is held; with a key it never throws and yields the decoded plaintext, or the placeholder when AES-GCM rejects |
| Crypto.CryptoManager.EncryptFile | crypto.js:107-123 | the file's bytes encrypted under the fresh IV, with its name, type and size; throws without a key |
| Crypto.CryptoManager.DecryptFile | crypto.js:133-149 | a blob of the plaintext with the given type; throws without a key and when the cipher rejects |
| Crypto.CryptoManager.Cleanup | crypto.js:212-215 | the key is dropped and the flag cleared |
| Crypto.SerializeLayout | crypto.js:178-182 | the serialised bytes are the IV followed by the ciphertext, \|iv\| + \|c\| of them |
| Crypto.DeserializeSplit | crypto.js:190-197 | deserialising fails only when `atob` throws; the IV is the first min(12, n) decoded bytes and IV plus ciphertext is all of them |
| Crypto.DeserializeShort | crypto.js:194-195 | fewer than 12 decoded bytes become the IV with an empty ciphertext; length is never rejected |
| Crypto.DeserializeSerialize | crypto.js:178-197 | deserialising a serialised envelope with a 12-byte IV gives back that IV and ciphertext |
| Crypto.TextRoundTrip | crypto.js:84-94 | for text of Unicode scalar values, encrypted text decrypts back to itself exactly when it does not begin with a byte order mark, which `TextDecoder` drops |
| Crypto.EnvelopeRoundTrip | crypto.js:39-197 | encrypt, serialise, deserialise and decrypt under one key returns the original text |
| Crypto.HashShape | crypto.js:156-170 | the hash text has 64 lower-case hex digits and parses back to the SHA-256 digest |
| Channel.ReceivedText | project/websocket.js:122-138 | definition of what `decryptMessage` returns for a key state and a `content` value |
| Channel.Dispatch | project/websocket.js:85-115 | definition of the callback calls the `switch` on `type` makes |
| Channel.BackoffDoubles | project/websocket.js:250-252 | each further reconnect waits twice as long as the previous one |
| Channel.BackoffBounds | project/websocket.js:250-252 | the five permitted delays lie between 2000 and 32000 ms |
| Channel.Calls | project/websocket.js:303-307 | definition of the calls `trigger` makes: each listener once, in registration order, with the same data; `Trigger`'s loop is proved against it |
| Channel.WithoutRemoves | project/websocket.js:292-296 | `off` removes every registration of the callback and keeps every other one |
| Channel.WithoutAppend | project/websocket.js:292-296 | `off` keeps the remaining callbacks in their order |
| Channel.ReceivedTextCases | project/websocket.js:122-138 | `decryptMessage` never throws: the decrypted plaintext or one of three placeholders |
| Channel.ReceivedTextRoundTrip | project/websocket.js:132-133 | a text message from a peer with the same key reads back as the text sent |
| Channel.FileMessagesSelect | project/websocket.js:192-218 | with a key, `sendFiles` sends one message per file of at most 10 MiB, carrying its name, type and size, in input order |
| Channel.FileMessagesNoKey | project/websocket.js:192-218 | without a key nothing is sent and one notice is shown per file |
| Channel.FileMessageRoundTrip | project/websocket.js:201-210 | a receiving peer with the same key recovers the file's exact bytes from the message content |
| Channel.DispatchUnknown | project/websocket.js:86-114 | a message of any other type fires no callback |
| Channel.DispatchTextMessage | project/websocket.js:95-102 | a `text_message` reaches each `message` callback with `content` decrypted, `decrypted: true` and every other field kept |
| Channel.DispatchForwards | project/websocket.js:104-110 | voice and file messages are forwarded unchanged to their callbacks |
| Channel.WebSocketManager.constructor | project/websocket.js:6-14 | no socket, disconnected, no attempts, an empty queue and no callbacks |
| Channel.WebSocketManager.Connect | project/websocket.js:19-30 | a new socket in the connecting state, or the error path when construction throws |
| Channel.WebSocketManager.OnOpen | project/websocket.js:36-49 | connected, attempts reset to 0, the whole queue sent in FIFO order and emptied, then the `connected` callbacks; the backoff invariant holds |
| Channel.WebSocketManager.FlushMessageQueue | project/websocket.js:240-245 | the queue is emptied and its messages sent in order after those already sent |
| Channel.WebSocketManager.SendMessage | project/websocket.js:224-235 | exactly one frame written when connected and open, else appended to the queue's tail, with a notice when disconnected |
| Channel.WebSocketManager.OnClose | project/websocket.js:60-73 | a reconnect is scheduled iff the code is neither 1000 nor 1001 and fewer than five attempts were made; otherwise the lost or closed notice |
| Channel.WebSocketManager.AttemptReconnect | project/websocket.js:250-260 | one more attempt, scheduled after 2000·2^(attempts−1) ms, keeping at most five since the last open |
| Channel.WebSocketManager.HandleError | project/websocket.js:266-273 | the `error` callbacks, and an error notice only when disconnected |
| Channel.WebSocketManager.OnMessage | project/websocket.js:51-58 | an unparseable frame is dropped; any other is dispatched |
| Channel.WebSocketManager.HandleMessage | project/websocket.js:85-115 | the callback calls are exactly those of the dispatch by `type` |
| Channel.WebSocketManager.DecryptMessage | project/websocket.js:122-138 | placeholder without a key, for empty or non-string content, or when `atob` throws; otherwise the decryption |
| Channel.WebSocketManager.SendTextMessage | project/websocket.js:144-163 | with a key, the encrypted serialised text is sent or queued; without one only the failure notice |
| Channel.WebSocketManager.SendVoiceMessage | project/websocket.js:169-186 | with a key, the encrypted recording and its duration are sent or queued; without one only the failure notice |
| Channel.WebSocketManager.SendFiles | project/websocket.js:192-218 | the messages sent or queued are exactly the per-file outcomes in input order, and so are the notices |
| Channel.WebSocketManager.SendNextFile | project/websocket.js:193-217 | one pass of the loop extends the outcome of the first i files to i + 1 |
| Channel.WebSocketManager.SendFile | project/websocket.js:194-216 | a file over 10 MiB or without a key gives a notice and no message; otherwise its `file_message` is sent or queued |
| Channel.WebSocketManager.On | project/websocket.js:280-285 | the callback is appended to the event's list, created on first use |
| Channel.WebSocketManager.Off | project/websocket.js:292-296 | the event's list loses every registration of the callback; other events are untouched |
| Channel.WebSocketManager.Trigger | project/websocket.js:303-307 | the event's callbacks are called in registration order; none for an unknown event |
| Channel.WebSocketManager.Disconnect | project/websocket.js:324-328 | a connecting or open socket starts closing with code 1000; otherwise nothing changes |
| Relay.Accepted | server.js:59-70 | definition of the drop rules: kept iff at most 10 MiB, parseable, and a truthy `object` |
| Relay.Stamp | server.js:73-74 | definition of the stamping; `StampFields` states what it keeps and overwrites |
| Relay.GuestNameInjective | server.js:41 | different counter values give different guest ids |
| Relay.StampFields | server.js:73-74 | the stamp overwrites `userId` and `timestamp` and keeps every other field |
| Relay.DeliveredReaches | server.js:100-108 | a broadcast appends the message for a client iff it is open and not the sender, and only appends |
| Relay.Relay.constructor | server.js:36-37 | an empty registry with the counter at 1 |
| Relay.Relay.DistinctIds | server.js:37-42 | two registered connections never share a guest id |
| Relay.Relay.Connect | server.js:39-53 | the connection joins as `Invité<counter>`, the counter moves on by one, it alone gets its `user_id`, then every open client gets the new count |
| Relay.Relay.Register | server.js:41-50 | the registry gains the connection under the next guest id, and `user_id` goes to it only |
| Relay.Relay.Message | server.js:56-82 | a frame of at most 10 MiB that parses to an object is stamped and broadcast to the other open clients; any other frame sends nothing |
| Relay.Relay.Close | server.js:85-92 | a registered connection leaves and the new count goes to every open client; an unregistered one changes nothing and sends nothing |
| Relay.Relay.Unregister | server.js:86-89 | the registry entry goes, and the result says whether there was one |
| Relay.Relay.ClientClosing | server.js:103-107 | a socket that starts closing stays among the clients but receives nothing more |
| Relay.Relay.Broadcast | server.js:100-108 | one pass writes the message to every open client other than the sender, and to no one else |
| Relay.Relay.BroadcastUserCount | server.js:111-123 | every open client receives the registry size |
| Relay.Relay.RegistrySize | server.js:111-112 | `connectedUsers.size` equals the number of clients |
| Relay.RemoveSpec | server.js:89 | deleting a connection keeps exactly the others, still without repeats |
| Files.IsTypeAllowed | files.js:57-59 | definition of `isTypeAllowed`: some category of the whitelist lists the type |
| Files.GetFileCategory | files.js:103-110 | definition of `getFileCategory`: the name of the first category listing the type, else "unknown"; `CategoryIffAllowed` relates it to `IsTypeAllowed` |
| Files.GetFileIcon | files.js:117-130 | definition of `getFileIcon`: the icon of the category, the paperclip for "unknown"; `IconOfUnknown` states its range |
| Files.IsFileNameSafe | files.js:66-96 | definition of `isFileNameSafe`: non-empty, no dangerous character, no reserved device name before the first '.', at most 255 UTF-16 units, no dangerous extension |
| Files.FirstContaining | files.js:103-110 | the first category listing the type, and none exactly when no category lists it |
| Files.CategoryIffAllowed | files.js:103-110 | the category is not "unknown" iff the type is allowed, and then it is a category listing the type |
| Files.CategoriesDisjoint | files.js:8-17 | no MIME type is listed under two categories |
| Files.IconOfUnknown | files.js:117-130 | every type gets one of the six icons, and the paperclip iff it is not allowed |
| Files.NamedCategoryIcon | files.js:120-129 | each whitelist category has its own icon, never the paperclip |
| Files.BeforeFirstDot | files.js:79 | `split('.')[0]` is a dot-free prefix ending at the first '.' |
| Files.Utf16Length | files.js:85 | the UTF-16 length is between one and two units per character |
| Files.SafetyIgnoresCase | files.js:66-96 | file-name safety does not depend on the case of ASCII letters |
| Files.DangerousExtensionUnsafe | files.js:90-93 | a name ending in a listed extension is unsafe whatever precedes it |
| Files.ValidationErrorsEmpty | files.js:25-50 | no error iff the size, type and name checks all pass; one error per failed check |
| Files.ValidateFile | files.js:25-50 | `valid` iff admissible, with the errors in the order size, type, name |
| Files.ProcessFiles | files.js:261-283 | the valid files in input order, and one warning per rejected file |
| Files.ValidFilesExact | files.js:261-282 | everything kept is valid, every valid input is kept, and kept plus warned is the input count |
| Files.ValidFilesAppend | files.js:265-273 | filtering keeps input order across a concatenation |
| Files.ValidFilesIdentity | files.js:261-282 | the selection comes back unchanged iff every file in it is valid |
| Files.ValidFilesShorter | files.js:261-282 | filtering never lengthens the selection |
| Files.LimitFiles | files.js:372-380 | the first min(n, maxFiles) files with a warning when over the limit, else the input unchanged |
| Files.PreviewGuardNeverRejects | files.js:139-142 | the guard as written rejects nothing, not even a PDF |
| Files.PreviewRejectsNonImages | files.js:139-142 | the corrected guard admits exactly the five image types |
| Audio.FirstSupportedSpec | project/audio.js:180-197 | the first supported candidate in priority order, and the fallback only when none is supported |
| Audio.AudioManager.GetSupportedMimeType | project/audio.js:180-197 | the first-match loop returns the preferred supported type |
| Audio.MicrophoneErrorMessages | project/audio.js:258-269 | the four recognised error names each get their own message; every other name gets the generic one |
| Audio.ReceivedAudio | project/audio.js:223-252 | definition of what `createDecryptedAudioElement` plays for a key state and the received data |
| Audio.ReceivedAudioRoundTrip | project/audio.js:235-246 | a voice message from a peer with the same key plays back as the recorded bytes |
| Audio.AudioManager.constructor | project/audio.js:6-12 | no recorder, no stream, not recording, no chunks |
| Audio.AudioManager.SetRecordingCompleteCallback | project/audio.js:328-330 | the completion callback is set |
| Audio.AudioManager.StartRecording | project/audio.js:59-115 | refuses and changes nothing while recording; a media failure only shows its message; a constructor failure keeps only the stream; a failure in `start` also keeps the new inactive recorder, empty chunks and start time `now`; otherwise a fresh recording of the preferred type starts at `now` |
| Audio.AudioManager.DataAvailable | project/audio.js:88-92 | a non-empty chunk is appended; an empty one is ignored |
| Audio.AudioManager.StopRecording | project/audio.js:120-139 | a no-op when not recording; otherwise recording ends, the recorder is stopped and the stream released |
| Audio.AudioManager.RecorderFailed | project/audio.js:98-101 | a recorder error stops as `stopRecording` does: a no-op when not recording, otherwise recording ends, the recorder becomes inactive and the stream is released |
| Audio.AudioManager.HandleRecordingStopped | project/audio.js:144-174 | nothing without chunks, only a notice under one second, else one blob with duration ms/1000, then chunks and recorder cleared |
| Audio.AudioManager.CreateDecryptedAudioElement | project/audio.js:223-252 | null without a key, for empty or non-string data, or when decoding or decryption fails; else the plaintext blob |
| Audio.AudioManager.HandleMicrophoneError | project/audio.js:258-273 | exactly one notice, carrying the message for the error's name |
| Audio.AudioManager.Cleanup | project/audio.js:310-322 | not recording, and stream, recorder and chunks all cleared |
| Config.GetConfig | project/config.js:81-83 | definition of `getConfig`: split the path at '.', then `obj && obj[key]` segment by segment from the root |
| Config.ValidateConfigAsWritten | project/config.js:86-110 | definition of `validateConfig` with its comparisons as written; `NonNumericPortAccepted` shows where it goes wrong |
| Config.ValidateConfig | project/config.js:86-110 | definition of `validateConfig` with each check rejecting NaN; `ValidateConfigAcceptsPorts` states when it passes |
| Config.Split | project/config.js:82 | `split('.')` always yields at least one piece |
| Config.SplitPieces | project/config.js:82 | no piece of a split holds the separator |
| Config.JoinSplit | project/config.js:82 | joining the pieces with the separator gives back the path |
| Config.SplitJoin | project/config.js:82 | splitting a join of dot-free segments gives back the segments |
| Config.WalkFalsy | project/config.js:82 | once the walk reaches a falsy value, that value is the result whatever keys remain |
| Config.WalkAppend | project/config.js:82 | walking a concatenated path walks the first part, then the second |
| Config.TwoLevelPath | project/config.js:81-83 | `section.key` takes two steps from the root |
| Config.UnknownSection | project/config.js:81-83 | a path whose first segment names no section and no `Object.prototype` property yields `undefined` and never throws |
| Config.FileSizeSetting | project/config.js:21 | `files.maxFileSize` is 10 MiB |
| Config.UploadLimitSetting | project/config.js:22 | `files.maxFilesPerUpload` is 10 |
| Config.ReconnectAttemptsSetting | project/config.js:14 | `websocket.maxReconnectAttempts` is 5 |
| Config.ReconnectDelaySetting | project/config.js:15 | `websocket.reconnectDelay` is 2000 |
| Config.IvLengthSetting | project/config.js:59 | `security.ivLength` is 12 |
| Config.PortSetting | project/config.js:8 | `server.port` is the PORT variable when set and non-empty, else 3000 |
| Config.HostSetting | project/config.js:9 | `server.host` is the HOST variable when set and non-empty, else "localhost" |
| Config.DebugSetting | project/config.js:75 | `development.debug` is true unless NODE_ENV is "production" |
| Config.LogLevelSetting | project/config.js:76 | `development.logLevel` is LOG_LEVEL when set and non-empty, else "info" |
| Config.ConfigMatchesModules | project/config.js:13-38 | the file ceiling, upload limit, reconnection policy and IV length match the constants the client modules hard-code |
| Config.EnvironmentSettings | project/config.js:5-78 | the four environment-driven settings and their defaults |
| Config.StringToNumber | project/config.js:90 | a string of decimal digits coerces to a finite number; a string with a letter no numeric literal has coerces to NaN |
| Config.ConfigErrors | project/config.js:86-110 | the corrected checks: the port error iff the port is not a number from 1 to 65535, the size and length errors iff those are not positive numbers |
| Config.CheckedSettingsOfEnv | project/config.js:90-100 | the values checked are the port as configured, 10485760 and 1000 |
| Config.AsWrittenAgreesOnFiniteValues | project/config.js:90-102 | on finite values the written comparisons and the corrected checks give the same errors |
| Config.NaNPortPassesAsWritten | project/config.js:90-92 | a NaN port raises no error as written, and raises the port error once corrected |
| Config.NonNumericPortAccepted | project/config.js:90-92 | with `PORT=http` the written check accepts the configuration and the corrected one rejects it |
| Config.HttpIsNaN | project/config.js:90 | "http" coerces to NaN |
| Config.ValidationOfPort | project/config.js:86-110 | the outcome turns on the port alone: the corrected check accepts exactly 1..65535, the written one anything not below 1 and not above 65535 |
| Config.ValidateConfigAcceptsPorts | project/config.js:86-110 | the defaults pass, and a decimal PORT passes iff it lies in 1..65535 |

## Left out

- Cipher and digest internals: AES-GCM, SHA-256, UTF-8 and `crypto.getRandomValues` are inputs with three laws only. Nonce uniqueness and cipher security are not modelled.
- The length limit of `String.fromCharCode(...combined)`: a very large envelope makes the spread throw a RangeError, which the model does not capture.
- `isSupported` in both `crypto.js` and `project/audio.js`, `requestMicrophonePermission`, `getAudioLevel`, `isConnectionActive` and `getFileInfo`: these are feature probes, audio analysis on floats, or record building with no rule to state.
- `escapeHtml`, `formatFileSize` and `formatTime` depend on the DOM serialiser, on `Math.log` and `toFixed`, and on the locale. The size error text is fixed at its value for 10 MiB.
- DOM code in `files.js`: `createImagePreview` beyond its guard, `createFileElement`, `downloadFile`, `setupDragAndDrop`, `showDropZone` and `hideDropZone`.
- `createAudioElement` and object URLs: a decrypted recording is returned as a blob.
- Notification text and the `showNotification` hook: notices are datatypes, and the hook is assumed present.
- `console` logging.
- HTTP static file serving and `listen` (server.js:11-30, server.js:125-131).
- `JSON.parse` and `JSON.stringify`: frames are values, parsing is an input, and object key order is not kept.
- Async interleaving: each handler runs atomically, so out-of-order completion of concurrent encryptions is not modelled.
- The reconnect `setTimeout`: it is recorded as a delay in `timers`, and its firing is a later `Connect` call.
- `config.websocket.messageQueueSize`: nothing reads it, and the real queue is unbounded.
- `files.allowedTypes` and `files.dangerousExtensions` are left out of `Config.AppConfig`. Nothing reads them through `getConfig`, and `files.js` keeps its own copies, which `Files` models.
- `config.audio` and `config.ui` are in the tree, but no lemma singles them out.
- Config.StringToNumber: covers the empty string, decimal digit strings, and strings with a letter no numeric literal contains. It yields None for white space, signs, fractions, exponents, radix prefixes and `Infinity`.
- Config.ValidateConfigAcceptsPorts: states the outcome only for an unset PORT or a decimal one.
- JsValue.Get: a property lookup on a value that is not an object is modelled as `undefined`, so `"abc".length` and array indices are not modelled.
- JsValue.Get: properties inherited from `Object.prototype` (`constructor`, `toString`, `__proto__`, …) are not modelled. `getConfig("toString")` returns a function in JavaScript, and `Config.UnknownSection` excludes these names.
- Crypto.Sound: strings are sequences of Unicode scalar values. Lone surrogates, which `TextEncoder` turns into U+FFFD so that they do not survive the round trip, are not modelled.
- Non-string inputs where the source checks `typeof`: file names are always strings.
- `AudioManager.onRecordingComplete` is set through `SetRecordingCompleteCallback` only; the blob it receives is recorded, not run.
- When the `MediaRecorder` constructor throws after `getUserMedia` succeeded, `startRecording` keeps the acquired stream, and only `cleanup` releases it. The model keeps this behaviour as written.

## Findings

| source | as written | input that shows it | evidently intended | confidence | as-written member | corrected member |
|---|---|---|---|---|---|---|
| project/config.js:90-92 | `port < 1 \|\| port > 65535` is false for a port that coerces to NaN, so no error is recorded | environment `PORT=http` | a port that is not a number from 1 to 65535 is rejected | not executed | Config.NonNumericPortAccepted | Config.ValidateConfigAcceptsPorts |
| files.js:139 | `!this.getFileCategory(file.type) === 'images'` compares a boolean with a string, so it is never true | a file of type `application/pdf` passes the guard | reject every file whose category is not `images` | not executed | Files.PreviewGuardNeverRejects | Files.PreviewRejectsNonImages |
