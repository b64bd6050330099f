# PetChat messaging and AI dispatch, modelled in Dafny

PetChat is a two-person chat application with an AI "pet" that watches the conversation. This
project models its messaging and AI-dispatch logic as pure functions over immutable data. Sockets,
threads and HTTP calls stay outside the model; the functions are what each of them does to the
program's state. The model covers:

- **The frame codec** (`protocol.dfy`, `bytes.dfy`, `crc32.dfy`).
  - A frame is an 8-byte header followed by the UTF-8 JSON payload.
  - The header holds the payload length and its CRC-32, each as a big-endian 32-bit value.
  - The CRC is the bitwise definition in section 8 of RFC 1952.
  - JSON text (RFC 8259) is an abstract `Codec` pair with a round-trip law.
  - `Pack` takes the `ensure_ascii` flag. The simple server and the client write ASCII-only JSON;
    the shared protocol module does not.
- **The simple chat server** (`chat_server.dfy`) and **the server core** (`server_core.dfy`).
  - Both keep a registry of sessions in dictionary order (`routing.dfy`, `dicts.dfy`).
  - Each decoded envelope is a step that yields the new registry and the deliveries it causes.
  - `Serve` runs the read loop over the whole byte stream a connection sends.
- **The relay server** (`relay.dfy`).
  - It keeps a room table of host and guest slots, plus per-socket metadata.
  - Frames have their own 4-byte-length framing.
  - It handles registration, forwarding to the peer, cleanup, and eviction of silent sockets.
  - The frame handler and the connection loop take a `Variant`. `AsWritten` registers as
    `_register_client` does; `Corrected` also frees the slot the socket held before (see
    "## Findings"). The invariants that hold for the code as written are proved for `AsWritten`.
    The stronger one, "a departed socket holds no slot", holds only for `Corrected`.
- **The client connection manager** (`network_client.dfy`): gated sends, the registration sent on
  connect, the receive loop, and the signals incoming envelopes fire.
- **AI plumbing.**
  - `retry_with_backoff` (`retry.dfy`) runs over a sequence of per-attempt outcomes.
  - Provider detection and construction (`factory.dfy`).
  - The OpenAI and Gemini providers (`openai_provider.dfy`, `gemini_provider.dfy`). The backend's
    answer to each attempt is a parameter.
  - The pure parts of the AI service (`ai_service.dfy`): the JSON span scanner, emotion
    normalisation, the memory short-cut and the suggestion keyword gate.
  - The application controller's schedule and memory de-duplication (`app_controller.dfy`).
- **Smaller cores.**
  - The data models' dictionary forms (`models.dfy`).
  - The API configuration map (`config_manager.dfy`).
  - The server CLI's configuration commands (`server_cli.dfy`).
  - The window registry (`window_manager.dfy`).

Python's values are modelled as follows:

- **JSON values** are the `Json` datatype (`json.dfy`). It has Python's truthiness and `dict.get`,
  and it tells which values may be dict keys. Two values are equal only when they have the same
  constructor and the same contents. Python's equality of numbers and booleans is not followed
  (see "## Left out").
- **`str.strip`, `str.lower` and `str.split`** are in `strings.dfy`.
- **Exceptions** are `Option` or `Result` values that carry the exception class.
- **Floats** are `real`.
- **Things the model cannot see are parameters:**
  - the time;
  - uuids;
  - `str()` of a non-string value;
  - `float()` and `int()` of a string;
  - the JSON and ISO-date codecs;
  - every answer a remote service gives.

## Model

| member | source | states |
|---|---|---|
| Bytes.Uint32ToBE | core/protocol.py:124 | `struct.pack('>I', n)` is four bytes and is only defined for 0 <= n < 2^32 |
| Bytes.BEToUint32 | core/protocol.py:130 | four big-endian bytes decode to a value below 2^32 |
| Bytes.DecodeEncode | core/protocol.py:124-130 | decoding the encoding of a 32-bit value gives the value back |
| Bytes.EncodeDecode | core/protocol.py:124-130 | encoding the value of four bytes gives the same bytes back |
| Bytes.EncodeInjective | core/protocol.py:124 | different 32-bit values have different encodings |
| Crc32.Crc | core/protocol.py:123 | `zlib.crc32(p) & 0xFFFFFFFF` is always below 2^32 |
| Protocol.ParseType | core/protocol.py:18-41 | `MessageType(s)` gives the member whose value is `s`, and None only when no member has that value |
| Protocol.ValueRoundTrip | core/protocol.py:18-41 | every member's value parses back to that member |
| Protocol.ValueInjective | core/protocol.py:18-41 | two members share a value exactly when they are the same member |
| Protocol.EncodeHeader | core/protocol.py:15 | the header is exactly HEADER_SIZE = 8 bytes |
| Protocol.UnpackHeader | core/protocol.py:127-130 | unpacking succeeds exactly on 8 bytes, and what it gives re-encodes to those bytes |
| Protocol.UnpackEncoded | core/protocol.py:124-130 | unpacking an encoded header gives back its length and checksum |
| Protocol.VerifyCrcUnique | core/protocol.py:132-135 | only a value below 2^32 verifies, and exactly one value verifies each payload |
| Protocol.VerifyCrc | core/protocol.py:133-135 | only a 32-bit value can verify; which one is stated by Protocol.VerifyCrcUnique |
| Protocol.Pack | core/protocol.py:118-125 | packing fails exactly when the payload length does not fit in 32 bits; a frame is 8 header bytes followed by the payload |
| Protocol.PackHeader | core/protocol.py:118-135 | a frame's first 4 bytes are the big-endian payload length, its header unpacks to (length, CRC), and the payload verifies against it |
| Protocol.ParseMessage | core/protocol.py:137-143 | a JSON decode error gives None, while a UTF-8 decode error is raised to the caller |
| Protocol.PackParse | core/protocol.py:118-143 | with a lawful codec, the payload of a packed frame parses back to the packed value |
| Protocol.RecvExact | core/server_core.py:201-210 | `_recv_exact(n)` gives exactly `n` bytes and the rest of the stream, or None when the stream is shorter |
| Protocol.ReadFrame | core/server_core.py:146-152 | a frame is read exactly when the header and a non-empty payload arrive whole, and then stream = header + payload + rest |
| Protocol.ReadEncoded | core/server_core.py:146-152 | a well-formed frame is read back whole, whatever follows it |
| Protocol.ReadPacked | core/protocol.py:118-130 | a packed frame is read back as (its length, its CRC, its payload), whatever follows it |
| Protocol.AnalysisRequestToDict | core/protocol.py:57-64 | the type is "ai_analysis_request" and a missing snapshot is written as `[]` |
| Protocol.AnalysisRequestRoundTrip | core/protocol.py:44-64 | the dictionary form keeps every field, except that a missing snapshot reads back as `[]` |
| Protocol.SuggestionToDict | core/protocol.py:75-82 | the type is "ai_suggestion" |
| Protocol.SuggestionRoundTrip | core/protocol.py:67-82 | the dictionary form keeps every field, and `suggestion_type` defaults to "suggestion" |
| Protocol.EmotionToDict | core/protocol.py:91-96 | the type is "ai_emotion" |
| Protocol.EmotionRoundTrip | core/protocol.py:85-96 | the dictionary form keeps the conversation id and every score |
| Protocol.StrMapRoundTrip | core/protocol.py:103 | a string-to-string memory survives its JSON form |
| Protocol.MemoriesToJson | core/protocol.py:109 | the memory list becomes a JSON list of the same length, element by element |
| Protocol.MemoriesRoundTrip | core/protocol.py:103-110 | the memory list survives its JSON form |
| Protocol.MemoryToDict | core/protocol.py:105-110 | the type is "ai_memory" |
| Protocol.MemoryRoundTrip | core/protocol.py:99-110 | the dictionary form keeps the conversation id and every memory |
| Dicts.Get | core/server_core.py:117 | `d.get(k)` is present exactly when `k` is a key, and is then the value stored under it |
| Dicts.Put | core/server_core.py:225-230 | `d[k] = v` makes `k` read `v` and leaves every other key alone; a new key goes last, an existing key keeps its place |
| Dicts.Remove | core/server_core.py:259-260 | deleting `k` makes it absent, leaves every other key alone, and shrinks the dict by one exactly when `k` was there |
| Dicts.Values | core/window_manager.py:32 | `list(d.values())` lists the values in insertion order |
| PyStrings.Strip | core/providers/openai_provider.py:50 | `strip()` removes whitespace only, from both ends, and leaves no whitespace at either end |
| PyStrings.RStripChar | core/providers/openai_provider.py:14 | `rstrip('/')` drops exactly the trailing slashes |
| PyStrings.Lower | core/providers/factory.py:19 | `lower()` keeps the length and lowers each ASCII capital |
| PyStrings.Split | server_cli.py:95 | `split('.')` gives at least one piece, none containing '.', and joining the pieces with '.' gives the input back |
| ChatRouting.Recipients | core/server_core.py:283-287 | a broadcast visits every entry except those stored under the excluded id, and nothing else |
| ChatRouting.RecipientsCount | core/server_core.py:283-287 | on a registry, exactly one entry is skipped when the excluded id is registered, and none otherwise |
| ChatRouting.Broadcast | core/server_core.py:283-287 | one delivery of the message per visited entry, to that entry's socket, in registry order |
| ChatRouting.BroadcastReaches | core/server_core.py:283-287 | every session not excluded receives the message, and every delivery goes to such a session |
| ChatRouting.OnlineUserList | server.py:236-251 | the `users` list has one entry per registered user other than the registrant, with that user's name and avatar |
| ChatRouting.OnlineUsersListed | core/server_core.py:244-254 | a user is listed exactly when registered under an id other than the registrant's, with the registered name and avatar |
| ChatServer.ExcludeIfTruthy | server.py:228-234 | `if exclude and uid == exclude`: a falsy id excludes nobody |
| ChatServer.HandleRegister | server.py:160-189 | an empty or missing id changes nothing and leaves the connection unregistered; a list or dict id raises TypeError; otherwise the session is stored under the id, with name "Unknown" and avatar "" as defaults, and no other entry changes |
| ChatServer.RegisterNotifies | server.py:178-187 | `user_joined` goes to every other session, one delivery each, and the registrant is answered last with `online_users` |
| ChatServer.HandleChat | server.py:191-209 | a chat addressed to another target goes only to that registered user, or nowhere when the target is unknown; a list or dict target raises TypeError |
| ChatServer.PublicChatReaches | server.py:193-200 | a public chat (the default target) reaches every session except the sender's, and nothing else |
| ChatServer.HandleDisconnect | server.py:211-226 | a falsy id does nothing; otherwise the entry goes and `user_left` reaches every remaining session; nothing is ever added or changed |
| ChatServer.Handle | server.py:116-125 | only a register changes the registry or the connection's id, it changes only entries it points at this socket, and unknown types do nothing |
| ChatServer.TypingExcludesSender | server.py:124-125 | `typing_status` reaches every session except the one under the envelope's own `sender_id` |
| ChatServer.BadCrcSkipped | server.py:104-107 | a frame with a bad checksum is skipped and reading continues |
| ChatServer.BadJsonSkipped | server.py:109-114 | a frame that is not JSON is skipped and reading continues |
| ChatServer.PackedHandled | server.py:90-125 | a packed object is handled, then the loop continues from the new state |
| ChatServer.Serve | server.py:86-135 | over a whole connection, every entry of the final registry is the one it started with or a session on this socket |
| ServerCore.HandleRegister | core/server_core.py:219-230 | the session is stored under whatever id was sent (None when missing), with the default name and avatar; only a list or dict id fails |
| ServerCore.RegisterNotifies | core/server_core.py:236-255 | `user_joined` reaches every other session, and the registrant is answered last with `online_users` |
| ServerCore.HandleChat | core/server_core.py:271-281 | a private chat goes only to the registered target, or nowhere |
| ServerCore.PublicChatReaches | core/server_core.py:271-276 | a public chat reaches every session except the one under `sender_id`, and their number is the registry size less that one |
| ServerCore.Handle | core/server_core.py:162-189 | only a register changes the registry; `msg_count` rises by one exactly on a chat; `ai_req_count` rises by the number of AI requests handed on; unknown types do nothing |
| ServerCore.ChatCountedUnregistered | core/server_core.py:169-173 | a chat is counted and routed the same way whether or not the connection has registered |
| ServerCore.PingAnswered | core/server_core.py:184-185 | a ping is answered with exactly one pong, on the same connection, and nothing else changes |
| ServerCore.AiRequestForwarded | core/server_core.py:176-181 | an AI request is handed on once, with the whole envelope, only when the connection has a truthy id |
| ServerCore.TypingExcludesOwnId | core/server_core.py:188-189 | `typing_status` reaches every session except the connection's own registered id |
| ServerCore.HandleDisconnect | core/server_core.py:257-269 | a falsy id does nothing; otherwise the entry under the id goes, every other entry stays, and `user_left` reaches every remaining session except one stored under None; only the registry changes, and only by removal |
| ServerCore.SendToClient | core/server_core.py:114-119 | a message goes to the registered user's socket, or nowhere when the id is unknown |
| ServerCore.BroadcastMessage | core/server_core.py:289-291 | the message reaches every session except one stored under None |
| ServerCore.Stop | core/server_core.py:71-91 | the server stops running, the registry is emptied, and the counters are kept |
| ServerCore.UndecodableSkipped | core/server_core.py:157-160 | a payload that is not UTF-8 is skipped by the bare `except` |
| ServerCore.NullRegistrationLingers | core/server_core.py:143-199 | a register without a `user_id` stores a session under None that the end of the connection never removes |
| ServerCore.Serve | core/server_core.py:143-199 | over a whole connection, every final registry entry is the one it started with or a session on this socket; `running` is unchanged, `msg_count` never falls, and `ai_req_count` rises by exactly the AI requests handed on |
| Relay.Release | relay_server.py:135-139 | a slot is freed only while it still names the socket; every other slot is kept; an emptied room is dropped |
| Relay.RegisterAsWritten | relay_server.py:104-121 | registration is refused exactly when another socket holds the slot; otherwise the socket takes it and its metadata is rewritten, a slot it held before is left as it was, and no empty room or third role appears |
| Relay.Vacate | relay_server.py:129-140 | freeing the socket's own slot touches no slot held by another socket and keeps the table free of empty rooms |
| Relay.VacateFrees | relay_server.py:129-140 | on a consistent table, the socket holds no slot once its own is freed |
| Relay.Occupy | relay_server.py:106-113 | `room[role] = conn` creates the room if needed and changes only that slot |
| Relay.Register | relay_server.py:104-121 | the same refusals as the code; a registration also frees the slot the socket held before |
| Relay.RegisterKeepsValid | relay_server.py:104-121 | a registration keeps the table valid: no empty room, only host and guest roles, and slots and metadata agree |
| Relay.RegisterKeepsSound | relay_server.py:104-121 | under the code as written and under the corrected registration alike, every registered socket still holds the slot its metadata names, and a slot held by another socket is left as it was |
| Relay.Touch | relay_server.py:123-127 | `last_seen` of a registered socket becomes `now`, nothing else changes, and the table keeps whichever invariant it had |
| Relay.Cleanup | relay_server.py:129-150 | the socket's metadata is dropped and only slots naming it can change; without metadata, the slot named by the handler's variables is freed; every remaining socket still holds the slot its metadata names |
| Relay.CleanupFreesSlots | relay_server.py:129-146 | on a valid table, a departed socket holds no slot and the table stays valid |
| Relay.Target | relay_server.py:183-191 | there is no target without a room and a role |
| Relay.TargetIsPeer | relay_server.py:183-191 | on a Valid table, which the corrected registration keeps, a registered socket's frames go to the opposite role in its room, never back to itself |
| Relay.SelfEchoAsWritten | relay_server.py:104-121 | as written, a socket registered as host and then as guest of one room is its own peer, although the table is Sound |
| Relay.SelfEchoCorrected | relay_server.py:104-121 | with the corrected registration the same socket has no peer, so its frames are dropped |
| Relay.UnregisteredDropped | relay_server.py:183-185 | a socket that never registered has no target |
| Relay.ReadRelayFrame | relay_server.py:48-54 | a frame is the 4-byte big-endian length, then that many bytes; reading fails exactly on a short stream or a zero length |
| Relay.SendRaw | relay_server.py:175-181 | `_send_raw` writes the 4-byte length and then the ASCII-only JSON text |
| Relay.SendRawRead | relay_server.py:48-57 | what the relay writes, its reader reads back as the same envelope |
| Relay.Ack | relay_server.py:152-164 | the ack reports the room's occupied roles and the number of registered sockets |
| Relay.HandleFrame | relay_server.py:56-99 | one frame of `_handle_client`; with `AsWritten` registration goes through `_register_client` as written, with `Corrected` through the corrected one. Undecodable payloads end the connection with INVALID_JSON and non-objects end it silently; an open connection either leaves the slots alone or holds the slot it named; other sockets keep their metadata and their slots |
| Relay.HandleFrameKeepsValid | relay_server.py:62-99 | with the corrected registration, every frame keeps the table valid and the handler's variables in line with the socket's metadata |
| Relay.HandleFrameKeepsSound | relay_server.py:62-99 | under the code as written (and the corrected registration), every frame keeps every registered socket in the slot its metadata names, no empty room, and only host and guest slots |
| Relay.RegisterDefaults | relay_server.py:65-67 | a register without room or role joins room "default" as a guest |
| Relay.InvalidRoleEnds | relay_server.py:68-70 | a role other than host or guest is answered with INVALID_ROLE, ends the connection, and changes no slot |
| Relay.RegisterConflict | relay_server.py:74-78 | a slot held by another socket is refused with REGISTER_FAILED and nothing changes; re-registering into one's own slot is acknowledged |
| Relay.ForwardVerbatim | relay_server.py:81-98 | every other frame refreshes `last_seen` and is forwarded to the peer as the exact bytes received, or dropped without a peer |
| Relay.Serve | relay_server.py:43-102 | `_handle_client` under either registration: after the connection ends the socket has no metadata, every other socket keeps its metadata, and no slot held by another socket changes |
| Relay.ServeKeepsValid | relay_server.py:43-102 | with the corrected registration, a whole connection from any valid table leaves a valid table in which the socket holds no slot |
| Relay.ServeKeepsSound | relay_server.py:43-102 | under the code as written, a whole connection keeps every registered socket in the slot its metadata names, no empty room, and only host and guest slots; a departed socket may still hold a slot (see Relay.StaleSlotAsWritten) |
| Relay.StaleConns | relay_server.py:209-214 | the monitor lists exactly the sockets silent for strictly more than 60 seconds |
| Relay.Evict | relay_server.py:215-217 | every listed socket loses its metadata, every other socket keeps its own, and every remaining socket still holds the slot its metadata names |
| Relay.EvictKeepsValid | relay_server.py:215-217 | evicting any list of sockets keeps the table valid |
| Relay.Monitor | relay_server.py:205-217 | one monitor round drops the metadata of exactly the sockets silent for more than 60 seconds, keeps every other socket's, and keeps every remaining socket in the slot its metadata names |
| Relay.MonitorKeepsValid | relay_server.py:205-217 | on a valid table, a monitor round keeps the table valid |
| Relay.StaleSlotAsWritten | relay_server.py:104-121 | under the code as written, a socket that moves to another slot and leaves keeps its old slot forever |
| Relay.StaleSlotCorrected | relay_server.py:104-121 | with the old slot freed on re-registration, the same sequence lets another socket in |
| NetworkClient.Disconnect | core/network.py:117-126 | the flag drops, the socket is forgotten, and `disconnected` fires |
| NetworkClient.SendMessage | core/network.py:152-165 | nothing happens without a socket or a running flag; bytes go out exactly when the frame packs and `sendall` succeeds; a failure disconnects |
| NetworkClient.RegisterEnvelope | core/network.py:98-103 | the registration carries the type `register` and exactly the user's id, name and avatar |
| NetworkClient.ChatEnvelope | core/network.py:134-141 | a chat carries the type `chat_message` and exactly the six fields the server and the other clients read |
| NetworkClient.TypingEnvelope | core/network.py:145-150 | a typing status carries the type `typing_status` and exactly four fields |
| NetworkClient.Connect | core/network.py:85-115 | a failed connect fires `connection_error` with the flag down; a successful one ends with `connected`, and a registration that goes out is the packed register envelope |
| NetworkClient.ConnectRegisters | core/network.py:98-104 | the server reads the first frame back as `register` with the user's id, name and avatar |
| NetworkClient.Signal | core/network.py:221-256 | a signal is built only for an envelope whose type is a string |
| NetworkClient.HandleMessage | core/network.py:221-256 | only the five known types do anything; a signal fires only with values of the types it was declared with (network.py:44-57), and otherwise `emit` raises |
| NetworkClient.ChatDefaults | core/network.py:226-233 | a bare chat shows sender "Unknown", target "public", and empty strings elsewhere |
| NetworkClient.ChatDelivered | core/network.py:132-141 | another client shows a chat with exactly the fields the sender filled in |
| NetworkClient.TypingShownIffOther | core/network.py:249-256 | typing status is shown exactly when it comes from another user |
| NetworkClient.UnknownIgnored | core/network.py:221-256 | types other than the five known ones fire nothing |
| NetworkClient.WrongTypeRaises | core/network.py:44-57 | a chat field that is not a string, a user list that is not a list, or a typing flag that is not a boolean makes `emit` raise TypeError |
| NetworkClient.ReceiveLoop | core/network.py:167-206 | the loop always ends with the flag down and `disconnected` as the last signal; a TypeError from `emit` ends it like any other exception |
| NetworkClient.CrcMismatchSkipped | core/network.py:187-190 | a frame with a bad checksum is skipped and reading continues |
| NetworkClient.ShortReadEnds | core/network.py:173-185 | a header or payload cut short ends the loop with nothing dispatched |
| NetworkClient.PackedDispatched | core/network.py:192-200 | a packed envelope is dispatched as it was sent and the loop continues; one a signal refuses ends the loop with `disconnected` |
| Retry.Delay | core/providers/retry.py:43 | the delay never exceeds `max_delay`, and is either `max_delay` or `base_delay * exponential_base^(k-1)` |
| Retry.DelayMonotone | core/providers/retry.py:43 | with base >= 1 and a non-negative base delay, delays never shrink |
| Retry.RunFrom | core/providers/retry.py:27-52 | at least one and at most `max_attempts` calls, one sleep fewer than calls, and no result only when the loop never ran |
| Retry.RetryCall | core/providers/retry.py:15-55 | no call at all when `max_attempts <= 0`; otherwise between one and `max_attempts` calls and a result; one sleep fewer than calls |
| Retry.DelaysFollowPolicy | core/providers/retry.py:43-50 | the i-th sleep is the delay after the i-th failed attempt |
| Retry.RetryWithBackoff | core/providers/retry.py:15-55 | the loop as written computes the same run as the reference definition |
| Retry.ResultOrigin | core/providers/retry.py:27-52 | every result comes from an attempt: a returned value, the last retryable exception, or a non-retryable one |
| Retry.FirstCallReturns | core/providers/retry.py:27-29 | a first call that returns gives its value after one call and no sleep |
| Retry.Exhausted | core/providers/retry.py:30-41 | all attempts failing retryably gives `max_attempts` calls and RetryError with the last exception |
| Retry.NonRetryablePropagates | core/providers/retry.py:28-30 | a non-retryable exception at attempt k is raised unchanged after k calls |
| Retry.NoAttempts | core/providers/retry.py:52 | with `max_attempts <= 0` the function is never called and the result is None |
| Retry.DelaysBounded | core/providers/retry.py:43 | every sleep is at most `max_delay`, and the sleeps never shrink |
| Retry.DefaultDelays | core/providers/retry.py:15-50 | the default policy sleeps 1 s and 2 s, then gives up after the third failure |
| ProviderFactory.StartsWithAny | core/providers/factory.py:35-37 | the prefix loop succeeds exactly when some prefix matches |
| ProviderFactory.DetectProvider | core/providers/factory.py:32-42 | detection answers "gemini" or "openai" |
| ProviderFactory.DetectionIff | core/providers/factory.py:32-42 | "gemini" exactly when the lower-cased model starts with a Gemini prefix or the URL contains the Gemini host |
| ProviderFactory.DetectIgnoresCase | core/providers/factory.py:33 | the model name's case does not matter |
| ProviderFactory.GeminiPrefixDetected | core/providers/factory.py:33-37 | "GEMINI-…" and "models/gemini…" are Gemini whatever the URL |
| ProviderFactory.GeminiHostDetected | core/providers/factory.py:39-40 | a URL on the Gemini host selects Gemini for any model |
| ProviderFactory.ResolvedType | core/providers/factory.py:19-22 | the type is lower-cased and stripped, and "auto" becomes the detected type |
| ProviderFactory.CreateProvider | core/providers/factory.py:12-29 | Gemini exactly for the resolved type "gemini"; otherwise OpenAI, on the local default URL when none is given |
| ProviderFactory.AutoFollowsDetection | core/providers/factory.py:19-25 | with "auto", in any case and padding, the backend follows the detection |
| ProviderFactory.ExplicitGemini | core/providers/factory.py:24-26 | a type that normalises to "gemini" builds Gemini whatever the model |
| ProviderFactory.OpenAiDefaultBase | core/providers/factory.py:28-29 | any other type, with no URL, builds OpenAI on http://127.0.0.1:1235/v1 |
| OpenAiProvider.New | core/providers/openai_provider.py:12-14 | the base URL loses its trailing slashes and nothing else |
| OpenAiProvider.TrailingSlashIgnored | core/providers/openai_provider.py:14 | an extra trailing slash makes no difference |
| OpenAiProvider.ChatUrl | core/providers/openai_provider.py:17 | the URL is the normalised base followed by "/chat/completions" |
| OpenAiProvider.Payload | core/providers/openai_provider.py:19-24 | model, messages, temperature and max_tokens are passed on unchanged |
| OpenAiProvider.Headers | core/providers/openai_provider.py:26-29 | two headers, with Authorization "Bearer " + key |
| OpenAiProvider.Attempt | core/providers/openai_provider.py:37-53 | a transport failure raises as it is, and a 4xx or 5xx status raises HTTPError |
| OpenAiProvider.ReplyText | core/providers/openai_provider.py:50 | a reply text has no surrounding whitespace; a body that is not an object raises TypeError, one without `choices` KeyError |
| OpenAiProvider.GenerateContent | core/providers/openai_provider.py:31-65 | at most three requests |
| OpenAiProvider.ReplyStripped | core/providers/openai_provider.py:50-53 | a well-formed reply comes back stripped after one request |
| OpenAiProvider.ExhaustedGivesNone | core/providers/openai_provider.py:31-59 | three timeouts or connection failures give None after three requests |
| OpenAiProvider.HttpErrorNotRetried | core/providers/openai_provider.py:47-62 | an HTTP error status gives None after one request |
| OpenAiProvider.MalformedResponse | core/providers/openai_provider.py:49-65 | a missing `choices` gives None; a non-string content raises out of the provider |
| GeminiProvider.TurnOf | core/providers/gemini_provider.py:37-40 | a message adds at most one history entry |
| GeminiProvider.History | core/providers/gemini_provider.py:31-40 | the history is no longer than the messages, and every entry is "user" or "model" |
| GeminiProvider.HistoryAppend | core/providers/gemini_provider.py:31-40 | messages convert one by one, in order: converting a concatenation concatenates the histories |
| GeminiProvider.InstructionAppend | core/providers/gemini_provider.py:35-36 | the instruction is the system contents in order, each followed by a blank line |
| GeminiProvider.ConvertOne | core/providers/gemini_provider.py:31-40 | user stays user, assistant becomes model, system goes to the instruction, and other roles are dropped |
| GeminiProvider.Prepare | core/providers/gemini_provider.py:19-47 | a request is made exactly when key, model and messages are present and the last entry is a user turn; it is then popped as the prompt, and an empty instruction is None |
| GeminiProvider.Attempt | core/providers/gemini_provider.py:84-97 | a returned reply is stripped and non-empty; a missing or blank text raises ValueError |
| GeminiProvider.GenerateContent | core/providers/gemini_provider.py:18-111 | at most three requests; none when the checks fail |
| GeminiProvider.Send | core/providers/gemini_provider.py:99-111 | a prepared request makes one to three requests |
| GeminiProvider.ReplyAlwaysStripped | core/providers/gemini_provider.py:89-97 | whatever the SDK does, a reply that comes back is non-empty and stripped |
| GeminiProvider.SystemThenUser | core/providers/gemini_provider.py:28-47 | a system prompt and a user message give the prompt plus a blank line as the instruction, an empty history, and the user text as the prompt |
| GeminiProvider.LastMustBeUser | core/providers/gemini_provider.py:45-47 | a chat ending with the assistant is never sent |
| GeminiProvider.Sends | core/providers/gemini_provider.py:99-105 | a chat that passes the checks is the retried request for it |
| GeminiProvider.ReplyStripped | core/providers/gemini_provider.py:91-97 | a non-blank reply comes back stripped after one request |
| GeminiProvider.EmptyReplyNone | core/providers/gemini_provider.py:89-111 | a blank or missing reply raises ValueError, which is not retried: one request, then None |
| GeminiProvider.ExhaustedGivesNone | core/providers/gemini_provider.py:49-108 | three transient failures give three requests, then None |
| AiService.Scan | core/ai_service.py:196-213 | whatever the scanner returns is the parse of a span that starts with the opener and ends with the closer; the full answer is stated by AiService.ScanIsFirstSpan |
| AiService.ExtractJson | core/ai_service.py:192-218 | the result is the whole-text parse or the parse of a `{…}` span |
| AiService.ExtractJsonArray | core/ai_service.py:220-246 | the result is `[]`, the whole-text parse, or the parse of a `[…]` span |
| AiService.NextOpen | core/ai_service.py:200-203 | the first opener from a position on, or the end of the text |
| AiService.NextZeroClose | core/ai_service.py:204-206 | the first closer from a position on at which the depth of the whole prefix is 0, or the end of the text |
| AiService.FirstSpan | core/ai_service.py:196-213 | the reference scan over whole prefixes: what it returns is the parse of an opener-to-closer span whose end brings the prefix depth to 0 |
| AiService.ScanFree | core/ai_service.py:199-213 | with no candidate, the running scan from any index answers what the reference answers from there |
| AiService.ScanLive | core/ai_service.py:199-213 | with a live candidate, the running scan attempts it at the next zero-depth close and on failure resumes as the reference does |
| AiService.ScanIsFirstSpan | core/ai_service.py:196-213 | the scanner returns exactly the parse of the first attempt that parses, every earlier attempt having failed, and nothing when no attempt parses: both directions, for every text |
| AiService.ExtractJsonIsFirstSpan | core/ai_service.py:192-218 | `_extract_json` is the first attempted `{…}` span that parses, else the whole-text parse |
| AiService.ExtractJsonArrayIsFirstSpan | core/ai_service.py:220-246 | `_extract_json_array` is the first attempted `[…]` span that parses, else a whole-text list, else `[]` |
| AiService.FirstBalancedSpan | core/ai_service.py:196-213 | a balanced span that parses, after text holding no bracket, is what the scanner returns |
| AiService.ObjectInProse | core/ai_service.py:192-213 | an object embedded in prose is found |
| AiService.NoBraceFallsBack | core/ai_service.py:214-218 | without an opening brace, the whole text is parsed |
| AiService.NoBracketListOrEmpty | core/ai_service.py:241-246 | without an opening bracket, a whole-text list is taken, and anything else gives `[]` |
| AiService.ToFloat | core/ai_service.py:83 | `float()` keeps ints and floats and raises on None, lists and dicts |
| AiService.Normalise | core/ai_service.py:80-92 | the result is exactly `{"neutral": 1.0}`, or the four emotions summing to 1 |
| AiService.Shares | core/ai_service.py:85-87 | dividing by a positive total gives the four emotions summing to 1 |
| AiService.SharesAddUp | core/ai_service.py:85-87 | the four shares of a positive total add up to 1 |
| AiService.AnalyzeEmotion | core/ai_service.py:37-95 | the backend is asked exactly when there are messages; a failed call gives neutral; a result is neutral or four emotions summing to 1 |
| AiService.UnknownKeysIgnored | core/ai_service.py:83 | keys other than the four emotions never matter |
| AiService.NonPositiveTotalNeutral | core/ai_service.py:88-89 | a total that is not positive gives neutral |
| AiService.ExtractMemories | core/ai_service.py:97-141 | the backend is asked exactly with two or more messages; otherwise, or on failure, the result is `[]` |
| AiService.MemoriesFromWholeReply | core/ai_service.py:136-138 | a reply holding a bare list is taken as it is |
| AiService.WholeList | core/ai_service.py:241-244 | a text without '[' that parses as a list is returned as that list |
| AiService.LastFive | core/ai_service.py:151 | `[-5:]` is the last five messages, or all of them when fewer |
| AiService.MentionsPlanExtends | core/ai_service.py:153-155 | text added on either side of a context never closes the keyword gate |
| AiService.GenerateSuggestion | core/ai_service.py:143-190 | the backend is asked exactly when the gate opens; a suggestion is the extracted object of a reply that is not null, none or empty |
| AiService.OnlyLastFiveCount | core/ai_service.py:151 | messages older than the last five never matter |
| AiService.NullishReplyNone | core/ai_service.py:182-184 | a reply that strips to null, none or nothing, in any case, gives no suggestion |
| AiService.NullIsNullish | core/ai_service.py:183 | "NULL" is such a reply |
| AppController.Triggered | main.py:263-275 | emotion iff count % 5 == 0, memories iff count % 10 == 0, suggestions iff count % 3 == 0 |
| AppController.OnMessage | main.py:237-261 | only the host with an AI service counts a message, by exactly one, and runs the schedule |
| AppController.OnceInTriggered | main.py:263-275 | each analysis is started at most once per message |
| AppController.CounterAdvances | main.py:246-261 | n messages move the counter by exactly n |
| AppController.StartedAtMultiples | main.py:263-275 | an analysis is started once for each count reached that is a multiple of its interval |
| AppController.EveryNth | main.py:263-275 | over n messages, an analysis runs (c+n)/k − c/k times for interval k |
| AppController.GuestNeverAnalyses | main.py:246-248 | without the host role and an AI service, nothing is counted or started |
| AppController.Recent | main.py:282 | the recent messages are the last n, oldest first |
| AppController.EmotionStep | main.py:277-295 | skipped with fewer than two recent messages; the recorded emotion has the highest score |
| AppController.Dominant | main.py:291-292 | `max` picks a highest-scoring emotion, the first in output order among ties |
| AppController.Bind | core/database.py:35-38 | a list, a dict or an integer outside 64 bits cannot be bound; None is NULL; a string is kept as it is |
| AppController.Insert | core/database.py:80-88 | the insert succeeds exactly on a storable memory, and the row holds the content's column text and a NULL or textual category |
| AppController.Contents | main.py:312 | the stored contents, in order |
| AppController.Deduplicate | main.py:306-317 | the loop only adds to the stored memories |
| AppController.Store | main.py:310-313 | a known string content leaves the store unchanged; a new one adds exactly the inserted row; the step raises exactly when the content is new and not storable; afterwards the content's text is stored |
| AppController.DeduplicateStep | main.py:308-313 | the loop handles memories one at a time, re-reading the store each time, and stops at an item that raises |
| AppController.DeduplicateAppend | main.py:308-317 | the loop over two batches is the loop over the first, then, unless cut short, over the second |
| AppController.DeduplicateUnique | main.py:308-313 | when every content is a string, no content is stored twice and everything added was not stored before |
| AppController.NonStringAddedAgain | main.py:312-313 | a number or boolean content is never found among the stored strings, so it is inserted again |
| AppController.DeduplicateAbortsIff | main.py:306-317 | the loop is cut short exactly when some memory, handled against the store the earlier ones left, raises |
| AppController.DeduplicateCompletes | main.py:308-313 | a batch of readable, storable memories is never cut short |
| AppController.DeduplicateStoresAll | main.py:308-313 | every memory the loop gets past has its content's column text stored |
| AppController.MemoryStep | main.py:297-317 | skipped with fewer than three recent messages; otherwise the store only grows, and stays duplicate-free when the extracted contents are strings |
| AppController.SuggestionStep | main.py:319-333 | a suggestion is shown only with two or more recent messages and only when non-empty |
| AppController.DuplicateInBatchStoredOnce | main.py:308-313 | a batch repeating a string content stores it once |
| AppController.NumberInBatchStoredTwice | main.py:308-313 | a batch repeating a number content stores its text twice |
| AppController.NullContentEndsLoop | main.py:306-317 | a null content raises on insert and ends the loop with nothing stored |
| AppController.StartFromDialog | main.py:377-393 | the host binds 0.0.0.0; a guest uses the given IP or 127.0.0.1; unparsable port text gives 8888 |
| Models.ParseStamp | core/models.py:49-51 | None stays None, and a string is parsed as an ISO date |
| Models.StampRoundTrip | core/models.py:42-51 | a timestamp survives its ISO form |
| Models.RequiredStr | core/models.py:53-54 | `data[key]` succeeds exactly when the key holds a string |
| Models.OptionalStr | core/models.py:55-56 | `data.get(key, default)` gives the default only when the key is missing |
| Models.OptionalInt | core/models.py:57 | `data.get(key, default)` gives the default only when the key is missing |
| Models.CreateLocal | core/models.py:25-32 | a local user is online, with the given name and avatar and the fresh id |
| Models.UserToDict | core/models.py:34-44 | the seven fields are written under the keys `from_dict` reads, with id and name as strings |
| Models.UserFromDict | core/models.py:46-60 | a dictionary without an id raises KeyError; success reads id and name from the dictionary |
| Models.UserRoundTrip | core/models.py:34-60 | every user survives `from_dict(to_dict())` |
| Models.UserDefaults | core/models.py:52-60 | id and name alone give avatar "", ip "", port 0, offline, and no last-seen time |
| Models.CreateP2p | core/models.py:76-86 | a p2p conversation is named after the peer, points at it, and is created and updated at the same time |
| Models.CreateGroup | core/models.py:89-98 | a group conversation has no peer and is created and updated at the same time |
| Models.ConversationToDict | core/models.py:100-111 | the eight fields are written, a missing peer as null, the type as a string |
| Models.ConversationFromDict | core/models.py:113-131 | id, type and name are required, and a null peer reads as None |
| Models.ConversationRoundTrip | core/models.py:100-131 | every conversation survives `from_dict(to_dict())` |
| Models.ConversationDefaults | core/models.py:122-131 | the peer defaults to None, the preview to "", and the unread count to 0 |
| Models.P2pSurvivesDict | core/models.py:76-131 | a fresh p2p conversation survives its dictionary form |
| Models.MessageToDict | core/models.py:144-153 | every field is written, and a missing timestamp becomes null |
| ConfigManager.GetApiKey | core/config_manager.py:40-42 | a missing key reads as None |
| ConfigManager.GetApiBase | core/config_manager.py:44-46 | a missing base reads as None |
| ConfigManager.SetApiKey | core/config_manager.py:48-51 | the key reads back, and nothing else changes |
| ConfigManager.SetApiBase | core/config_manager.py:53-59 | a non-empty base is stored and an empty one removed; nothing else changes |
| ConfigManager.SetApiConfig | core/config_manager.py:61-64 | entries other than the key and the base are untouched; what it stores is stated by ConfigManager.ApiConfigReadsBack |
| ConfigManager.HasApiConfig | core/config_manager.py:66-68 | a missing key or an empty key is not a configuration; a stored string key is one exactly when it is non-empty |
| ConfigManager.Reset | core/config_manager.py:70-72 | nothing is configured any more |
| ConfigManager.SettersIndependent | core/config_manager.py:48-59 | setting the key leaves the base alone, and the reverse |
| ConfigManager.ApiConfigReadsBack | core/config_manager.py:61-68 | after `set_api_config(k, b)` both read back, and the config counts as present exactly when k is non-empty |
| ConfigManager.SetApiKeyIdempotent | core/config_manager.py:48-51 | setting the same key twice is setting it once |
| ConfigManager.ClearBaseIdempotent | core/config_manager.py:53-59 | clearing the base twice is clearing it once |
| ServerCli.LoadConfig | server_cli.py:42-46 | with no file, the config is `{"server_port": 8888, "ai_config": {}}` |
| ServerCli.StartPort | server_cli.py:57 | a non-zero `--port` wins, then the file's `server_port`, then 8888 |
| ServerCli.DefaultStartPort | server_cli.py:42-57 | with no file and no `--port`, the server starts on 8888 |
| ServerCli.SetPath | server_cli.py:95-99 | `config set` writes the first key and leaves every other top-level key unchanged |
| ServerCli.GetPath | server_cli.py:108-115 | an empty path gives the whole value |
| ServerCli.SetPathSucceedsIff | server_cli.py:96-99 | the write goes through exactly when no value on the path is a non-dict |
| ServerCli.GetAfterSet | server_cli.py:95-113 | `config get` reads back what `config set` wrote on the same path |
| ServerCli.DivergentPathUnchanged | server_cli.py:95-99 | a path that leaves the written one reads the same before and after |
| ServerCli.MissingKeyNotFound | server_cli.py:110-115 | a missing first key reads as not found instead of failing |
| ServerCli.CmdSet | server_cli.py:89-101 | refused exactly when the key or value is missing or empty |
| ServerCli.CmdGet | server_cli.py:103-115 | refused exactly when the key is missing or empty |
| ServerCli.SetThenGet | server_cli.py:89-115 | `config get` of the key just set prints the value just set |
| ServerCli.DefaultConfigSettable | server_cli.py:84-101 | any top-level key can be set in the default configuration |
| WindowManager.Empty | core/window_manager.py:11-13 | a new manager holds no windows |
| WindowManager.RegisterWindow | core/window_manager.py:15-19 | the window is stored under the fresh id, which is returned, and other ids are unchanged |
| WindowManager.UnregisterWindow | core/window_manager.py:21-24 | the id is forgotten, other ids are unchanged, and an unknown id changes nothing |
| WindowManager.GetWindow | core/window_manager.py:26-28 | a window is found exactly for a registered id |
| WindowManager.GetAllWindows | core/window_manager.py:30-32 | one window per registered id, in registration order |
| WindowManager.RegisterAppends | core/window_manager.py:15-32 | a window registered under a new id is listed last |
| WindowManager.RegisterThenUnregister | core/window_manager.py:15-24 | registering then unregistering a new id gives back the same registry |
| WindowManager.GetInstance | core/window_manager.py:38-43 | the stored instance, or a new empty one that is kept for later calls |
| WindowManager.SameInstance | core/window_manager.py:38-43 | every later call returns the instance the first call made |

## Left out

- **Sockets, threads and locks.**
  - Each decoded frame is one atomic step over the state.
  - A connection is the byte stream it will send.
  - Sends always succeed, except in the client, where success is a parameter.
  - Accept loops, `sock.close` and concurrent interleavings are not modelled.
- **I/O and logging.** Logging, `print`, the server callbacks, PyQt signals beyond their payloads,
  and the relay's HTTP status server (relay_server.py:219-254) are left out.
- **Storage and sleeps.**
  - The SQLite store is the sequence of memory rows `get_memories` reads back. Each row holds the
    content text and the category text or NULL. `created_at`, `session_id` and the row order are
    left out; the loop's membership test does not depend on them.
  - A float bound to a TEXT column is stored as SQLite's text rendering of the REAL. That rendering
    is a parameter.
  - The config and crash-log files, and the monitor's sleep, are left out.
- **External services.**
  - JSON text, ISO dates, uuids, `str()` and `float()`/`int()` of strings are abstract parameters.
  - The OpenAI client, `requests` and the Gemini SDK appear only as their answers to each attempt.
- **Floats** are `real`: IEEE rounding, NaN, infinities and OverflowError are not modelled.
- **The running flag inside `_recv_exact`** (core/network.py:211). The receive loop tests the
  flag before every frame. Within one frame the flag can only drop from another thread (a
  `disconnect` call), which the model does not interleave.
- **Numeric and boolean equality.**
  - Python treats `1`, `1.0` and `True` as one dict key and as equal under `==`; likewise `0`,
    `0.0` and `False`.
  - The model compares `Json` values by constructor and contents. A registry entry stored under
    the id `1` is therefore not found by a lookup with `True`, although Python would find it.
  - Only user ids (and `sender_id`, `target` and `exclude` compared with them) that are numbers or
    booleans are affected. JSON object keys are always strings.
- **Lower-casing.** `str.lower` lowers ASCII letters only.
- **AI service inputs.**
  - The messages handed to the AI service and providers are assumed to carry their fields; the
    KeyError on a malformed message is not modelled.
  - The AIService constructor and the prompts it builds are not modelled.
- **Gemini type checks.** The `isinstance` checks of the Gemini provider are not modelled, since the
  model's values are typed.
- **The explicit AI request** (`_on_ai_requested`, main.py:335-375) and main.py's network wiring
  are not modelled.
- **Tests that disagree with the code.** The model follows the code.
  - tests/network_test.py:154-171 expects a sender to receive its own public chat, which the server
    never sends.
  - tests/test_ai_providers.py:167-182 expects None for a whitespace-only OpenAI reply, which returns
    "".
- **Features that exist only in the tests.** CircuitBreaker and the circuit-aware AIService
  constructor appear in tests/test_ai_providers.py but not in the code.
- Crc32.Crc: the contract states only the range. The value is the bitwise register of RFC 1952
  section 8 by definition. The table-driven form and the "any one-byte change changes the CRC"
  property are not proved.
- OpenAiProvider.GenerateContent: the contract states only the request bound. The outcomes are
  stated case by case in the lemmas that follow it. The exception classes that escape are
  collapsed into a few constructors.
- ServerCli.StartPort: `--port 0` is treated like a missing port, as `args.port or …` does. A port
  given as something other than an int is not modelled.
- Models.UserFromDict: a field of the wrong JSON type is an `IllTyped` error. Python would store it
  unchecked.
- Models.ConversationFromDict: the same holds for its fields.
- AiService.NullIsNullish: it shows one spelling; NullishReplyNone covers every reply of that kind.
- WindowManager.RegisterWindow: the uuid is a parameter, and callers pass a fresh one.
- NetworkClient.HandleMessage: the declared signal types are taken literally. `str` needs a
  string, `list` a list and `bool` a boolean; anything else raises TypeError. A conversion PyQt
  performs instead of raising is not modelled.
- AiService.Scan: its own contract says only that an answer is a parsed span. The exact answer,
  in both directions, is AiService.ScanIsFirstSpan.
- AiService.FirstBalancedSpan: it covers only a span with no bracket before it. The general case is
  AiService.ScanIsFirstSpan.

## Findings

| source | as written | input that shows it | evidently intended | confidence | as-written member | corrected member |
|---|---|---|---|---|---|---|
| relay_server.py:104-121 | `_register_client` gives a socket its new slot but never frees the slot it held before; `_cleanup_connection` frees only the slot named in the socket's metadata, which is the new one | socket 1 registers as host in room A, then as guest in room B, then disconnects; socket 2 then registers as host in room A | the old slot is freed on re-registration, so a departed socket holds no slot and socket 2 is admitted | high, not executed | Relay.StaleSlotAsWritten | Relay.StaleSlotCorrected |
| relay_server.py:104-121 | the same stale slot, when a socket re-registers into the other role of its own room: `_get_target` (relay_server.py:183-191) then names the socket itself | socket 1 registers as host in room A, then as guest in room A, then sends a frame | the host slot is freed, so the frame is dropped rather than echoed to the sender | high, not executed | Relay.SelfEchoAsWritten | Relay.SelfEchoCorrected |
