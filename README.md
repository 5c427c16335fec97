# Bluetooth chat: envelope codec, session bookkeeping and templates

This is a Dafny model of the core of a Tizen web application. Two devices chat over a Bluetooth RFCOMM socket: one registers a chat service (the server, or responder) and the other finds it, bonds and connects (the client, or initiator). The model covers:

- **The message envelope.** A four-field record `{name, text, ping, bye}`. `sendMessage` and `sendBye` build it:
  - the strings are percent-encoded with `encodeURIComponent`;
  - the record is serialised with `JSON.stringify`;
  - the text becomes one character code per UTF-16 unit and is written to an open socket.

  The receiver turns each byte back into a character with `String.fromCharCode`. The server parses the frame with `JSON.parse`; the client shows it as it came. Both standard functions are modelled after their definitions:
  - `encodeURIComponent` and `decodeURIComponent`: ECMA-262 5.1 section 15.1.3, percent-encoding per section 2.1 of RFC 3986 over UTF-8 per RFC 3629;
  - `JSON.stringify` and `JSON.parse`: ECMA-262 5.1 sections 15.12.2-15.12.3, and RFC 8259.

  The socket carries WebIDL `byte`s, which are signed 8-bit values. `Envelope.ToInt8` and `Envelope.FromCharCode` model the conversion at each end. The round trip is therefore lossless only for ASCII text. Percent-encoding guarantees ASCII, and the model proves that it does.
- **The responder** (`Server`, `ServerModel`). A class holding:
  - the client count;
  - the last accepted socket;
  - the service handler;
  - a log of every call it makes to the application, the pages, the adapter or a socket.
- **The initiator** (`Client`). A class holding:
  - the discovery flag;
  - the socket;
  - a log of calls, including the `ClientModel` requests and the status requests that `@1` and `@0` frames ask for.
- **The adapter power bookkeeping** (`Model`). The `operationInProgress` flag brackets each power request. The success and error callbacks of each request are event methods.
- **The template manager.** Three parts:
  - `%param%` substitution through `passThruModifiers`, with JavaScript's replacement patterns and the modifier placeholders `%param|m1|m2%`;
  - `getCompleted`, `get`;
  - the cache and per-call counter of `loadToCache`.
- **`checkStringLength`.**

Asynchronous requests are recorded calls, and their outcomes are event methods that the environment invokes. The adapter's present `powered` state and name are parameters. So are a socket's current `state` and whether a call throws. The 500 ms `setTimeout` delays are treated as immediate continuations.

Where the code and its documentation differ, the model follows the code:

- `onclose` assigns `this.globalSocket = null` inside an unbound function. The runtime calls that handler on the socket, so the assignment lands on the socket, and `Server.globalSocket` / `Client.globalSocket` keep the closed socket.
- Both constructors ignore the UUID they are given and use the fixed serial-port UUID.
- `powerOff` and `restartBluetooth` have no `try`. A request that throws leaves `operationInProgress` raised.

The files:

- `wrappers.dfy`: `Option` and `Result`.
- `helpers.dfy`: `checkStringLength`.
- `hex.dfy`: hexadecimal digits.
- `uri.dfy`: `encodeURIComponent` and `decodeURIComponent`.
- `json.dfy`: `JSON.stringify` and `JSON.parse`, with their round-trip laws.
- `envelope.dfy`: the record, the wire and the delivery laws.
- `app.dfy`: the outward calls.
- `servermodel.dfy`, `server.dfy`: the responder.
- `client.dfy`: the initiator.
- `model.dfy`: adapter power.
- `templates.dfy`: the template engine.

## Model

| member | source | states |
|---|---|---|
| `Helpers.CheckStringLength` | finalcodes/js/app.helpers.js:45-47 | true if and only if the string is not empty |
| `Helpers.EmptyStringFails` | finalcodes/js/app.helpers.js:46 | the empty string gives false |
| `Helpers.OnlyLengthMatters` | finalcodes/js/app.helpers.js:45-47 | two strings of the same length get the same verdict, whatever their characters |
| `Uri.EncodeURIComponent` | tizen/js/app.server.model.js:119-120 | the output holds only unreserved characters and `%`, and is never shorter than the input |
| `Uri.DecodeEncode` | tizen/js/app.server.model.js:119-120 | `decodeURIComponent(encodeURIComponent(s))` succeeds with `s` for every string |
| `Uri.EncodeInjective` | tizen/js/app.server.model.js:119-120 | two strings with the same encoding are equal |
| `Uri.DecodeEscapedChar` | tizen/js/app.server.model.js:119-120 | the escapes of one character's UTF-8 bytes decode to that character, leaving the rest of the text |
| `Json.Get` | tizen/js/app.server.js:144-148 | for a key no prototype defines, a property access fails with a TypeError exactly on `null`; an object gives the value of its last member with that key, any other value gives undefined |
| `Json.LastValue` | tizen/js/app.server.js:144-148 | a key has a value exactly when some member has that key |
| `JsonLaws.ParseStringify` | tizen/js/app.server.js:143 | `JSON.parse(JSON.stringify(v))` gives back `v` for every value without numbers |
| `JsonLaws.ValueRoundTrip` | tizen/js/app.server.model.js:124 | parsing the stringified value at the head of any text gives the value and the rest after whitespace |
| `Envelope.Utf16` | tizen/js/app.server.model.js:129 | at least one code unit per character, each below 0x10000 |
| `Envelope.CharCodes` | tizen/js/app.server.model.js:128-130 | the loop fills the array with the string's `charCodeAt` units, in order |
| `Envelope.AsciiUnits` | tizen/js/app.server.model.js:124-130 | for ASCII text, one code per character, equal to its code point |
| `Envelope.ToInt8` | tizen/js/app.server.model.js:133 | the signed byte is congruent to the code modulo 256, and equal to it below 128 |
| `Envelope.WireBytes` | tizen/js/app.server.model.js:133 | one byte per code, each the signed conversion of that code |
| `Envelope.FromCharCode` | tizen/js/app.server.js:141 | a non-negative byte gives that code point, a negative one the code point `b + 0x10000` |
| `Envelope.FromCharCodes` | finalcodes/js/app.client.js:219-223 | one character per byte, in order |
| `Envelope.ReadFrame` | tizen/js/app.server.js:140-142 | the loop builds the string of one character per byte read |
| `Envelope.WireAscii` | tizen/js/app.server.js:140-142 | ASCII text written as codes and read back as characters is the same text |
| `Envelope.WireCorruptsNonAscii` | tizen/js/app.server.model.js:129-133 | `é` arrives as U+FFE9: unencoded text would not survive the socket |
| `Envelope.EncodedPlain` | tizen/js/app.server.model.js:119-120 | percent-encoded text is ASCII and needs no JSON escape |
| `Envelope.SerializeAscii` | tizen/js/app.server.model.js:118-124 | a record whose strings need no escape serialises to ASCII |
| `Envelope.ParseSerialize` | tizen/js/app.server.model.js:124 | parsing the serialised record gives the four-member object back |
| `Envelope.RecordFields` | tizen/js/app.server.model.js:118-123 | the object's `name`, `text`, `ping` and `bye` are the record's four fields |
| `Envelope.ReadFields` | tizen/js/app.server.js:143-148 | a frame that does not parse throws a SyntaxError, and a `null` frame throws a TypeError; every other frame succeeds, an object giving its last `name`, `text`, `ping` and `bye` members and any other value four undefined |
| `Envelope.FieldsRoundTrip` | tizen/js/app.server.js:140-148 | the bytes written for a record are read back as its four fields |
| `Envelope.MessageDelivered` | tizen/js/app.server.model.js:117-133 | a sent message arrives with its encoded name and text and no flag set, and decoding gives back the name and message as typed |
| `Envelope.ByeDelivered` | tizen/js/app.server.model.js:150-166 | a bye arrives with the encoded name, an empty text and only `bye` set |
| `Envelope.AtMostOneFlag` | tizen/js/app.server.model.js:118-156 | neither record has both flags set, and the two records always differ |
| `Envelope.FrameCodes` | tizen/js/app.server.model.js:124-130 | the array has one code per character of the serialised record, equal to its code point and below 128 |
| `ServerModel.RegisterServer` | tizen/js/app.server.model.js:57-70 | a request is made exactly when no client is connected, with the given UUID and `'Chat service'`; a throw adds one log entry, which carries the exception's message |
| `ServerModel.UnregisterChatServer` | tizen/js/app.server.model.js:88-99 | a handler is unregistered unless `unregister` throws, which runs the error callback; no handler gives only the start buttons |
| `ServerModel.SendMessage` | tizen/js/app.server.model.js:111-139 | nothing unless the socket is there and open; then the record's codes are written and the callback gets the unencoded message; an exception of the write or the callback is logged |
| `ServerModel.SendBye` | tizen/js/app.server.model.js:149-171 | the bye record's codes are written only to an open socket, with no callback; a throw is logged |
| `ServerRole.Server.constructor` | tizen/js/app.server.js:27-33 | the fixed UUID whatever the argument; no client, socket or handler |
| `ServerRole.Server.GetNumberOfClients` | tizen/js/app.server.js:103-105 | returns the client count |
| `ServerRole.Server.RegisterServer` | tizen/js/app.server.js:112-118 | the guarded registration with the server's own UUID; no field changes |
| `ServerRole.Server.OnRegisterError` | tizen/js/app.server.model.js:63-65 | the registration error is logged, nothing else |
| `ServerRole.Server.RegisterServerSuccess` | tizen/js/app.server.js:126-163 | the handler is kept and the chat page shown |
| `ServerRole.Server.OnConnect` | tizen/js/app.server.js:130-161 | one more client, its socket replaces the last, the connection is on, and no ping is written |
| `ServerRole.Server.OnSocketMessage` | tizen/js/app.server.js:133-150 | the frame's four properties are displayed still encoded; a frame that does not parse throws and displays nothing |
| `ServerRole.Server.OnSocketError` | tizen/js/app.server.js:151-154 | the error is logged and that socket closed |
| `ServerRole.Server.OnSocketClose` | tizen/js/app.server.js:155-159 | connection off and client gone; the count and the socket field unchanged |
| `ServerRole.Server.UnregisterChatServer` | tizen/js/app.server.js:170-177 | the three outcomes of the model's dispatch on the stored handler |
| `ServerRole.Server.UnregisterChatServerSuccess` | tizen/js/app.server.js:184-189 | no handler, no client, and a restart |
| `ServerRole.Server.UnregisterChatServerError` | tizen/js/app.server.js:196-200 | no client, the handler kept, the error logged, and a restart |
| `ServerRole.Server.SendMessage` | tizen/js/app.server.js:209-216 | a message on the last socket under the adapter's name, case by case as the model sends it |
| `ServerRole.Server.SendBye` | tizen/js/app.server.js:224-229 | a bye on the last socket, case by case as the model sends it |
| `ClientRole.StatusRequestFor` | finalcodes/js/app.client.js:224-249 | `pwr=1` exactly for a frame starting `@1`, `pwr=0` exactly for one starting `@0`, none for any other |
| `ClientRole.EnvelopeIsNotControl` | finalcodes/js/app.client.js:224 | a chat record read off the socket never asks for a status |
| `ClientRole.Client.constructor` | finalcodes/js/app.client.js:29-35 | the fixed UUID whatever the argument; not discovering, no socket, no device |
| `ClientRole.Client.SetDiscovering` | finalcodes/js/app.client.js:117-120 | the flag takes the value, and the page shows it |
| `ClientRole.Client.GetDiscovering` | finalcodes/js/app.client.js:128-130 | returns the value last set |
| `ClientRole.Client.SearchServer` | finalcodes/js/app.client.js:137-139 | one search request |
| `ClientRole.Client.AddDeviceToList` | finalcodes/js/app.client.js:147-149 | the device is handed to the page |
| `ClientRole.Client.StopServerSearching` | finalcodes/js/app.client.js:157-169 | a stop that, with an address, continues by bonding with it, and, without one, only stops |
| `ClientRole.Client.StartBonding` | finalcodes/js/app.client.js:178-180 | one bonding request for the address |
| `ClientRole.Client.ConnectToService` | finalcodes/js/app.client.js:188-195 | one connection request to the device with the fixed UUID |
| `ClientRole.Client.ConnectToServiceSuccess` | finalcodes/js/app.client.js:204-279 | the socket is kept; connection on, chat page with the device's name, then the ping, the first call that sends anything |
| `ClientRole.Client.ConnectToServiceError` | finalcodes/js/app.client.js:287-289 | the error is logged, nothing else |
| `ClientRole.Client.OnSocketMessage` | finalcodes/js/app.client.js:208-266 | one character per byte; the status request the prefix asks for, then the frame displayed unchanged |
| `ClientRole.Client.OnSocketError` | finalcodes/js/app.client.js:267-270 | the error is logged and the socket closed |
| `ClientRole.Client.OnSocketClose` | finalcodes/js/app.client.js:271-275 | connection off and server gone; the socket field unchanged |
| `ClientRole.Client.SendPing` | finalcodes/js/app.client.js:296-298 | a ping request under the adapter's name on the stored socket |
| `ClientRole.Client.SendMessage` | finalcodes/js/app.client.js:307-314 | a message request on the stored socket |
| `ClientRole.Client.SendBye` | finalcodes/js/app.client.js:322-324 | a bye request on the stored socket |
| `ClientRole.Client.DestroyBonding` | finalcodes/js/app.client.js:333-339 | an unbonding request for the stored device |
| `AdapterModel.AlertText` | finalcodes/js/app.model.js:91-97 | a ReferenceError gives the no-Bluetooth message; any other error the problem message followed by its own text |
| `AdapterModel.CheckPowerState` | finalcodes/js/app.model.js:115-119 | exactly one callback: the power-on button if and only if the adapter is off |
| `AdapterModel.LosesConnection` | finalcodes/js/app.model.js:81 | a lost connection exactly when power went off and no operation is in progress |
| `AdapterModel.Model.constructor` | finalcodes/js/app.model.js:27-62 | the fixed UUID, no operation in progress, no listener |
| `AdapterModel.Model.Init` | finalcodes/js/app.model.js:70-101 | without Bluetooth the alert and exit, and no callback; otherwise the listener and the callback, with any exception ending in its alert and an exit |
| `AdapterModel.Model.Fail` | finalcodes/js/app.model.js:88-99 | the alert for the exception, then the exit |
| `AdapterModel.Model.CheckPowerStateNow` | finalcodes/js/app.model.js:111-120 | the one callback `CheckPowerState` chooses; no field changes |
| `AdapterModel.Model.OnStateChanged` | finalcodes/js/app.model.js:80-84 | `connectionLost` exactly when the adapter went off and no operation is in progress |
| `AdapterModel.Model.PowerOn` | finalcodes/js/app.model.js:129-155 | a powered adapter calls back at once; otherwise the flag is raised before the request, and lowered with the popup and button when it throws |
| `AdapterModel.Model.PowerOnSuccess` | finalcodes/js/app.model.js:134-142 | the flag drops and the callback runs |
| `AdapterModel.Model.PowerOnError` | finalcodes/js/app.model.js:143-145 | the flag drops and nothing is called |
| `AdapterModel.Model.PowerOff` | finalcodes/js/app.model.js:164-181 | an unpowered adapter calls back at once; otherwise the flag is raised and power-off requested; a throw escapes with the flag raised |
| `AdapterModel.Model.PowerOffDone` | finalcodes/js/app.model.js:169-176 | on success and on error alike the flag drops and the callback runs |
| `AdapterModel.Model.RestartBluetooth` | finalcodes/js/app.model.js:189-210 | as `powerOff`, and it never requests power on |
| `AdapterModel.Model.RestartSuccess` | finalcodes/js/app.model.js:194-202 | the flag drops and the callback runs |
| `AdapterModel.Model.RestartError` | finalcodes/js/app.model.js:203-205 | the flag drops and nothing is called |
| `AdapterModel.Model.SetAdapterName` | finalcodes/js/app.model.js:220-234 | a rename request only when asked, otherwise the callback at once; a request that throws lets the exception out with no call made |
| `AdapterModel.Model.SetNameSuccess` | finalcodes/js/app.model.js:224-226 | the callback runs after a successful rename |
| `Templates.GroupEnd` | tizen/js/app.ui.templateManager.js:182 | the lazy group ends at the first `%`, with no line terminator or `%` before it |
| `Templates.MatchLength` | tizen/js/app.ui.templateManager.js:180-183 | `%param%` matches exactly where the token starts; `%param|…%` only where the opening starts, ending at a `%` |
| `Templates.FirstMatch` | tizen/js/app.ui.templateManager.js:192-193 | the leftmost match, or none exactly when nothing matches |
| `Templates.DoubleDollars` | tizen/js/app.ui.templateManager.js:188-190 | the doubled content is never shorter |
| `Templates.ExpandDoubled` | tizen/js/app.ui.templateManager.js:184-190 | a content with its `$` doubled is inserted verbatim, whatever the match and its surroundings |
| `Templates.ReplaceNoMatch` | tizen/js/app.ui.templateManager.js:205 | a pattern that matches nowhere leaves the text unchanged |
| `Templates.JoinSplit` | tizen/js/app.ui.templateManager.js:205 | joining the pieces between the occurrences with the token gives the text back |
| `Templates.ReplaceIsSplitJoin` | tizen/js/app.ui.templateManager.js:181-205 | the global replace of `%param%` puts the content in place of every leftmost non-overlapping occurrence and changes nothing else |
| `Templates.PlainPlaceholders` | tizen/js/app.ui.templateManager.js:177-207 | without a modifier placeholder, every `%param%` becomes the content verbatim |
| `Templates.NoPlaceholder` | tizen/js/app.ui.templateManager.js:192-206 | a template without a placeholder for the parameter is left unchanged |
| `Templates.AbsentParameter` | tizen/js/app.ui.templateManager.js:154-164 | a parameter whose placeholder the template lacks does not affect the completion |
| `Templates.LoadPrefix` | tizen/js/app.ui.templateManager.js:84-135 | the counter never exceeds the names looked at |
| `Templates.FiresOnlyWhenAllCached` | tizen/js/app.ui.templateManager.js:87-135 | the counter equals the number of names looked at exactly when all of them are cached, so `onSuccess` fires during the walk only when every name of the batch was cached already |
| `Templates.EmptyBatchNeverFires` | tizen/js/app.ui.templateManager.js:87-135 | an empty list of names makes no fetch and never calls `onSuccess` |
| `Templates.NoRefetch` | tizen/js/app.ui.templateManager.js:87 | no fetch is ever made for a cached name |
| `Templates.UncachedFetched` | tizen/js/app.ui.templateManager.js:87-97 | every name not cached is fetched from the directory and extension |
| `Templates.CachedPrefix` | tizen/js/app.ui.templateManager.js:125-134 | while all names are cached, nothing fires before the last is counted |
| `Templates.AllCachedFiresOnce` | tizen/js/app.ui.templateManager.js:125-134 | when every name is cached, `onSuccess` fires exactly once, at the end, and nothing is fetched |
| `Templates.TemplateManager.constructor` | tizen/js/app.ui.templateManager.js:25-51 | an empty cache, and the modifiers given |
| `Templates.TemplateManager.Get` | tizen/js/app.ui.templateManager.js:61-66 | `''` for a name not cached, otherwise the cached template completed with the parameters |
| `Templates.TemplateManager.GetCompleted` | tizen/js/app.ui.templateManager.js:148-165 | one parameter at a time, each on the previous result; no parameters leave the template unchanged |
| `Templates.TemplateManager.LoadToCache` | tizen/js/app.ui.templateManager.js:75-138 | nothing for a non-array; otherwise a new batch with the calls and counter of the walk; the cache is unchanged |
| `Templates.TemplateManager.OnFetchSuccess` | tizen/js/app.ui.templateManager.js:102-116 | the batch's counter grows by one, the template is cached (entries are only added), and `onSuccess` fires once the counter reaches the number of names |
| `Templates.TemplateManager.OnFetchError` | tizen/js/app.ui.templateManager.js:117-123 | the error is logged, nothing else |

## Left out

- The Bluetooth adapter, service handler and socket internals are left out. These are `getDefaultAdapter`, `setChangeListener`, `setPowered`, `setName`, `registerRFCOMMServiceByUUID`, `unregister`, `readData`, `writeData` and `close`. They are external I/O: each request is a recorded call, and each outcome is an event method.
- `ClientModel`, `ModifierManager`, the application object and the pages are not part of this model. The calls into them are recorded. The modifiers are a map given to the template manager's constructor.
- The status requests of the client (`XMLHttpRequest` to the statistics server) are network I/O. Only which `pwr` a frame asks for is modelled, not the `callback` those requests would call.
- The `sleep` busy-wait is left out: it is wall-clock timing and nothing calls it.
- The `$.ajax` template fetch is left out, since it is asynchronous I/O. The fetch is recorded with its URL, and its success and error arrive as event methods.
- `window.alert` and the application exit are recorded calls that set `exited`. Nothing after them is modelled.
- The `setTimeout` delays of 500 ms are left out; the callbacks they postpone run as immediate continuations.
- Floating point is left out: a JSON number is kept as its lexeme. `JsonLaws.ParseStringify` and `JsonLaws.ValueRoundTrip` require values without numbers, which the chat record never has.
- `Uri.EncodeURIComponent`: strings are sequences of Unicode scalar values, so its URIError path for a lone surrogate cannot be expressed.
- `Json.ParseEscape`: a `\u` escape of a lone surrogate is refused here, where `JSON.parse` accepts it. The resulting JavaScript string is not representable.
- `Envelope.Utf16` gives a character outside the Basic Multilingual Plane as its two UTF-16 units, as `charCodeAt` does. The delivery laws need only the ASCII case that percent-encoding produces.
- The `this` binding of the unbound `onclose` handlers is modelled as the socket the runtime calls them on. Under a strict-mode call without a receiver they would throw instead.
- Concurrency of the asynchronous callbacks is left out. Each event method is one step, applied in the order the environment chooses.
- `Templates.PassThruModifiers`: in the modifier path, a `$1` or `$01` in the replacement (which the capture group of `%param|…%` gives a meaning) is kept literally. The content's own `$` are already doubled, so this only matters for a `$` that a modifier introduces.
- `Templates.PassThruModifiers`: a parameter name is taken literally. The source builds a regular expression from it, so a name holding regular-expression metacharacters behaves differently.
- `Templates.PassThruModifiers`: content that is not a string is left out. The parameters are strings here.
- `ClientRole.Client.OnSocketMessage` does not record the `console.log` diagnostics of the two status branches. They are debug output and change no state.
- `Json.Get`: keys that a prototype defines (`length`, `toString`, `constructor`, …) are not modelled; such a key gives undefined here. The four keys the server reads (`name`, `text`, `ping`, `bye`) are none of them.
- `ClientRole.Client.SendMessage`: the page's `callback` handed on to the model's `sendMessage` is not tracked; the recorded request carries only the name, the socket and the message.
- `Templates.ApplyModifiers` does not log the console message for an unknown modifier name.
- `Templates.TemplateManager.GetCompleted`: the parameters are a sequence in the object's own enumeration order. That order is not derived from the object itself.
- `Templates.TemplateManager`: the cache is per instance; in the source it sits on the prototype and is shared by every instance. Names that are also `Object.prototype` properties are left out.
