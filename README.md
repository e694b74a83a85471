# voice2text: board control, sample conditioning and transcript relay

This project models the two pieces of sequential logic in voice2text and proves
properties about them.

- **The board** (`esp.cpp`) is an ESP32 with an I2S microphone and an OLED display.
  It holds three control globals: `isStarted`, `oledText` and `oledNeedsUpdate`.
  Its WebSocket handler updates them from inbound JSON commands (`start`, `stop`,
  `text`) and from disconnects. Each pass of `loop` does three things:
  - while the socket is connected and recording is started, it reads up to 1600
    bytes of 16-bit little-endian samples;
  - it rewrites each complete sample in place: the filter term, then the boost of
    0.98 × 32, then a clamp to the int16 range, updating the stored filter state as
    it goes;
  - it sends exactly the bytes read, and redraws the display only when the flag is
    raised.
- **The relay server** (`server.js`) holds three socket slots: the board, the
  browser UI and an AssemblyAI streaming session. It also holds the `turns` map
  from turn order to transcript text. It forwards board audio to AssemblyAI. Each
  Turn message stores its text, and the server then sends the full transcript to
  the UI and to the board. The transcript is the stored texts in ascending numeric
  turn order, joined by single spaces. The session's Begin sends the start
  messages to the UI and the board. A UI stop sends stop to the board and
  Terminate to an open session. The session's close sends stop to both. Every
  send is guarded like `sendSafe`: it goes only to a present, OPEN socket.

Files:
- `base.dfy`: `Option` and `Byte`.
- `samples.dfy`: the per-sample arithmetic and the in-place frame as a function.
- `device.dfy`: the board's globals as the class `Board`, and the handler as
  functions with lemmas.
- `transcript.dfy`: the ordered transcript and its ordering and overwrite lemmas.
- `relay.dfy`: the server as the class `Server`.
- `protocol.dfy`: how the board reads what the server sends it.

Modelling choices:
- The capture buffer is an `array<Byte>` of 1600 bytes. Sample k sits in bytes 2k
  (low) and 2k+1 (high). So an odd `bytes_read` is handled exactly as written:
  `bytes_read / 2` samples are processed and `bytes_read` bytes are sent.
- The driver's read is a parameter `ReadResult(err, data)`. The driver stores
  `data` at the start of the buffer. Processing, the filter update and the send
  happen only when `err == ESP_OK` and `data` is non-empty. On a failed read the
  buffer therefore holds whatever partial data the driver stored, unprocessed.
- The connection state is an input flag to `Loop`. `webSocket.loop()` is modelled
  as the caller calling `HandleEvent` for each event it delivers before `Loop`.
- On the server, a socket in a slot is `Socket(id, open)`. Everything written to a
  socket is appended to the log `sent` as `Delivery(id, message)`. Changes to a
  socket's readyState made by the WebSocket library appear as a caller assigning
  the slot. A close handler empties its slot whichever socket is closing, exactly
  as the code does.
- Two behaviours of the code that are easy to misread:
  - closing the AssemblyAI session does not clear `turns` (server.js:159-164);
  - the boost is the float product `0.98f * s * 32`, truncated toward zero
    (esp.cpp:226), not a rounding.

## Model

| member | source | states |
|---|---|---|
| `Samples.HighPass` | esp.cpp:223 | the filter term `last + current - last` equals the current sample, whatever the stored state |
| `Samples.Boost` | esp.cpp:223-226 | the boost is 0.98 × 32 = 31.36 times the sample, truncated toward zero (bounds on both signs) |
| `Samples.Clamp16` | esp.cpp:228-240 | the stored value is in [-32768, 32767]; values in range are kept, values above saturate to 32767 and below to -32768 |
| `Samples.ProcessSample` | esp.cpp:222-240 | one loop iteration's output is in the int16 range and equals the conditioned raw sample, independent of the filter state |
| `Samples.SampleOf` | esp.cpp:217-222 | reading a little-endian byte pair as `int16_t` yields a value in the int16 range |
| `Samples.EncodeSample` | esp.cpp:229-240 | storing an int16 value into its slot writes two bytes that read back as that value |
| `Samples.EncodeSampleOf` | esp.cpp:217 | reading a slot and storing the value back gives the same two bytes |
| `Samples.ConditionedFrame` | esp.cpp:216-241 | conditioning the first n samples in place keeps the buffer length and every byte from 2n on |
| `Samples.ConditionedFrameSamples` | esp.cpp:220-241 | every processed slot k < n holds the clamped boost of raw sample k: no wrap-around, no dependence on other samples |
| `Samples.ConditioningExamples` | esp.cpp:222-240 | raw 1000 gives 31360; 2000 saturates to 32767; -2000 saturates to -32768 |
| `Device.ApplyText` | esp.cpp:109-146 | a parse failure changes nothing; start/stop/text are applied in that order by key presence: stop wins over start for `isStarted`, text overrides the status text, and the flag is raised iff some key is present |
| `Device.OnEvent` | esp.cpp:95-152 | a disconnect shows "Disconnected!" and raises the flag without touching `isStarted`; connect, binary and other events change nothing; only text messages change `isStarted` |
| `Device.IntentIgnoresConnectionEvents` | esp.cpp:95-152 | after any event sequence, `isStarted` is what the text messages alone make of the earlier intent |
| `Device.StartSurvivesReconnect` | esp.cpp:99-128 | start, disconnect, reconnect leaves streaming in effect with no second start |
| `Device.ApplyTextIdempotent` | esp.cpp:123-143 | handling the same message twice has the effect of handling it once |
| `Device.Deposited` | esp.cpp:207-212 | the driver's read replaces the first `bytes_read` bytes and keeps the rest |
| `Device.PayloadSamples` | esp.cpp:243-244 | a sent payload has exactly `bytes_read` bytes, and each complete sample in it is the conditioned raw sample, in the int16 range |
| `Device.Board.constructor` | esp.cpp:40-92 | initially not started, empty status text, flag down, filter state 0, zeroed 1600-byte buffer |
| `Device.Board.Setup` | esp.cpp:189-190 | setup queues "Ready." for display and leaves `isStarted` alone |
| `Device.Board.HandleEvent` | esp.cpp:95-152 | the three globals become `OnEvent` of their old values and the event; nothing else changes |
| `Device.Board.Loop` | esp.cpp:198-261 | nothing is read, processed or sent unless connected and started; a failed or empty read sends nothing and keeps the filter state; otherwise the buffer becomes the conditioned frame, the filter state the last raw sample, and the first `bytes_read` bytes are sent; the flag ends down and the display is redrawn with the current text iff it was up |
| `Device.Board.StoreRead` | esp.cpp:207-212 | the buffer afterwards holds the driver's bytes at its start |
| `Device.Board.ConditionSamples` | esp.cpp:216-241 | the loop rewrites the buffer to the conditioned frame and leaves the filter state at the last raw sample |
| `Transcript.Smallest` | server.js:142-143 | the least turn order of a non-empty set |
| `Transcript.SortedKeys` | server.js:142-143 | the turn orders, each once, in strictly ascending numeric order |
| `Transcript.IncreasingUnique` | server.js:142-143 | two strictly increasing sequences with the same elements are equal |
| `Transcript.NumericSortIsSortedKeys` | server.js:142-143 | any numerically non-decreasing arrangement of the distinct keys is the sorted key sequence, so the result does not depend on key listing order |
| `Transcript.JoinAppend` | server.js:145 | joining two non-empty runs of words puts exactly one space between them |
| `Transcript.Store` | server.js:139 | a Turn's text is stored under its order, replacing any earlier one, and every other entry is kept |
| `Transcript.SortedKeysWithLater` | server.js:142-143 | a new order above all stored ones goes last in the sorted keys |
| `Transcript.WordsWithLater` | server.js:142-144 | a new order above all stored ones adds its text as the last word |
| `Transcript.LaterTurnAppends` | server.js:137-145 | a turn after all stored ones extends the transcript by one space and its text (or is the whole transcript if nothing was stored) |
| `Transcript.FirstTurnAfterReset` | server.js:130-145 | after the turns are reset, the first turn's text is the whole transcript |
| `Transcript.ReplacedTurnKeepsPlace` | server.js:139-145 | a repeated turn order replaces that turn's word in place and changes no other word |
| `Transcript.StoreAllContents` | server.js:137-139 | after turns with distinct orders arrive, each is stored under its order, and every other stored entry is kept |
| `Transcript.ArrivalOrderIrrelevant` | server.js:137-145 | turns with distinct orders give the same map and the same transcript whatever their arrival order |
| `Transcript.StoreAllSameKeys` | server.js:137-139 | the same set of distinct-order turns, arriving in either order, leaves the same set of stored orders |
| `Transcript.StoreAllSameValues` | server.js:137-139 | the same set of distinct-order turns, arriving in either order, leaves the same text under every stored order |
| `Relay.Deliver` | server.js:89-99 | a message is delivered, once and to that socket, iff the slot holds a socket that is OPEN |
| `Relay.Server.constructor` | server.js:101-104 | all slots empty, no turns, nothing sent |
| `Relay.Server.SendSafe` | server.js:89-93 | the log grows by exactly what `Deliver` allows |
| `Relay.Server.OnEspConnection` | server.js:106-109 | the board slot holds the new, open socket |
| `Relay.Server.OnEspMessage` | server.js:110-114 | board data goes to the session unchanged iff the session slot holds an open socket |
| `Relay.Server.OnEspClose` | server.js:116-119 | the board slot becomes empty |
| `Relay.Server.OnUiConnection` | server.js:122-125 | the UI slot holds the new, open socket |
| `Relay.Server.OnUiClose` | server.js:178-181 | the UI slot becomes empty |
| `Relay.Server.OnUiMessage` | server.js:126-176 | start clears the turns and installs the opened session (or keeps the old slot if the connection failed) and sends nothing; stop sends {stop} to the board, Terminate only to an open session, then empties the session slot and the turns; anything else changes nothing |
| `Relay.Server.OnAaiMessage` | server.js:134-157 | a Turn stores its text and sends the ordered transcript to the UI as {type:'transcript'} and to the board as {text}; Begin sends {type:'start'} and {start:true}; other or unparsable messages change nothing |
| `Relay.Server.OnAaiClose` | server.js:159-164 | the session slot empties, {type:'stop'} goes to the UI and {stop:true} to the board; the turns are kept |
| `Protocol.AsDocument` | server.js:148-169 | exactly the board-bound messages become documents for the board's parser |
| `Protocol.BoardFollowsServer` | esp.cpp:123-143 | the server's start makes the board record with "Recording...", stop makes it stop with "Stopped.", and a transcript is shown without changing recording; each raises the display flag |

## Left out

- `Samples.Boost`: models `(int32_t)(0.98f * s * 32)` by the exact rational 3136/100 truncated toward zero. The board's single-precision product can differ from it by one for some large samples.
- Hardware and display setup are not modelled: I2S channel and pin configuration, I2C, the U8g2 font and drawing calls, and the WiFi association (esp.cpp:53-90, 154-187). These are driver calls. `Loop` returns the text it would draw.
- The WebSocket client library is not modelled: `webSocket.loop()`, `isConnected()`, `sendBIN` framing and the 5000 ms reconnect timer. Connection state is an input, and events arrive as calls to `HandleEvent`.
- ArduinoJson parsing is not modelled: the 1024-byte document capacity, and how `as<String>()` converts a non-string `text` value. A message is `ParseError` or a `Document` of present keys and a text value.
- The 100 ms read timeout and the driver's internals are not modelled. The read's outcome is the `ReadResult` parameter.
- Serial logging is not modelled on either side. It has no effect on state.
- The server's transport is not modelled: the HTTP redirect, HTTPS certificates, Express static files and the `listen` calls (server.js:19-57, 186-197).
- Token fetching and session opening (`generateTempToken`, `connectAssemblyAI`, server.js:59-87) are not modelled. Their outcome is the `session` parameter of `OnUiMessage`.
- Interleaving is not modelled. In the code, other events can run between `turns = {}` and the `await` completing. The model handles the UI start as one step.
- A second UI start leaves the earlier session's handlers attached. Their messages and close act on the same globals. The model has one handler set, so it does not tell the two sessions' events apart.
- Outgoing messages are constructors, not `JSON.stringify` text.
- A Turn's `turn_order` is assumed to be an integer. A missing or non-numeric order, for which the numeric comparator gives NaN, is not modelled.
- A JSON `null` from the session makes `payload.type` throw inside the listener (server.js:135-137). The throw escapes the listener as an uncaught exception; that path is not modelled, and the model treats the message as one that changes nothing.
- `Relay.Server.OnUiMessage`: the UI handler is `async` (server.js:126), and nothing handles its rejected promise. A `JSON.parse` failure (server.js:127), a `null` message (server.js:129) and a session `error` before open (server.js:85, awaited at server.js:131) reject it. A token failure (server.js:78) rejects only the session executor's own promise, so the `await` never completes and that rejection is unhandled too. Under Node 15 and later the default unhandled-rejection mode ends the server process. The model turns all of these into no-ops (`UiUnparsable`, `session == None`). Its effect on the globals is right only while the process survives; process termination is not modelled.
