/** The chat wire format: an 8-byte header (big-endian payload length, then the CRC-32 of the
    payload, both unsigned 32-bit) followed by the UTF-8 JSON payload; the message-type names; and
    the dictionary form of the four AI envelopes. */
module Protocol {
  import opened Wrappers
  import opened Bytes
  import opened JsonValues
  import Crc32

  const HEADER_SIZE: nat := 8

  /** What `struct` or the UTF-8 decoder raise while packing, unpacking or parsing. */
  datatype Failure = StructError | UnicodeDecodeFailure

  /** The `type` values of the protocol. */
  datatype MessageType =
    | Register | UserJoined | UserLeft | OnlineUsers
    | ChatMessage | TypingStatus
    | AiAnalysisRequest | AiSuggestion | AiEmotion | AiMemory
    | AiRequest
    | Ping | Pong
  {
    function Value(): string {
      match this
      case Register => "register"
      case UserJoined => "user_joined"
      case UserLeft => "user_left"
      case OnlineUsers => "online_users"
      case ChatMessage => "chat_message"
      case TypingStatus => "typing_status"
      case AiAnalysisRequest => "ai_analysis_request"
      case AiSuggestion => "ai_suggestion"
      case AiEmotion => "ai_emotion"
      case AiMemory => "ai_memory"
      case AiRequest => "ai_request"
      case Ping => "ping"
      case Pong => "pong"
    }
  }

  /** `MessageType(s)`: the member whose value is `s`, if any. */
  function ParseType(s: string): (r: Option<MessageType>)
    ensures r.Some? ==> r.value.Value() == s
    ensures r.None? ==> forall t: MessageType :: t.Value() != s
  {
    if s == "register" then Some(Register)
    else if s == "user_joined" then Some(UserJoined)
    else if s == "user_left" then Some(UserLeft)
    else if s == "online_users" then Some(OnlineUsers)
    else if s == "chat_message" then Some(ChatMessage)
    else if s == "typing_status" then Some(TypingStatus)
    else if s == "ai_analysis_request" then Some(AiAnalysisRequest)
    else if s == "ai_suggestion" then Some(AiSuggestion)
    else if s == "ai_emotion" then Some(AiEmotion)
    else if s == "ai_memory" then Some(AiMemory)
    else if s == "ai_request" then Some(AiRequest)
    else if s == "ping" then Some(Ping)
    else if s == "pong" then Some(Pong)
    else None
  }

  /** Distinct members have distinct values, so a value names its member. */
  lemma ValueRoundTrip(t: MessageType)
    ensures ParseType(t.Value()) == Some(t)
  {
  }

  /** Two members with the same value are the same member. */
  lemma ValueInjective(a: MessageType, b: MessageType)
    ensures a.Value() == b.Value() <==> a == b
  {
    ValueRoundTrip(a);
    ValueRoundTrip(b);
  }

  // ---------------------------------------------------------------------------------------------
  // Header

  datatype Header = Header(length: int, crc: int)

  predicate ValidHeader(h: Header) {
    IsUint32(h.length) && IsUint32(h.crc)
  }

  /** `struct.pack('>II', length, crc)`. */
  function EncodeHeader(h: Header): (r: bytes)
    requires ValidHeader(h)
    ensures |r| == HEADER_SIZE
  {
    Uint32ToBE(h.length) + Uint32ToBE(h.crc)
  }

  /** `struct.unpack('>II', header_bytes)`, which raises unless it is given exactly 8 bytes. */
  function UnpackHeader(b: bytes): (r: Result<Header, Failure>)
    ensures r.Ok? <==> |b| == HEADER_SIZE
    ensures r.Ok? ==> ValidHeader(r.value) && EncodeHeader(r.value) == b
  {
    if |b| != HEADER_SIZE then Err(StructError)
    else
      var h := Header(BEToUint32(b[..4]), BEToUint32(b[4..]));
      EncodeDecode(b[..4]);
      EncodeDecode(b[4..]);
      assert b == b[..4] + b[4..];
      Ok(h)
  }

  /** Unpacking an encoded header gives back its two fields. */
  lemma UnpackEncoded(h: Header)
    requires ValidHeader(h)
    ensures UnpackHeader(EncodeHeader(h)) == Ok(h)
  {
    var b := EncodeHeader(h);
    assert b[..4] == Uint32ToBE(h.length);
    assert b[4..] == Uint32ToBE(h.crc);
    DecodeEncode(h.length);
    DecodeEncode(h.crc);
  }

  // ---------------------------------------------------------------------------------------------
  // Frames

  /** `zlib.crc32(payload) & 0xFFFFFFFF == expected_crc`. */
  predicate VerifyCrc(payload: bytes, expectedCrc: int): (b: bool)
    ensures b ==> IsUint32(expectedCrc)
  {
    Crc32.Crc(payload) == expectedCrc
  }

  /** Only a value below 2^32 can match, and only one value matches a payload. */
  lemma VerifyCrcUnique(payload: bytes, c1: int, c2: int)
    requires VerifyCrc(payload, c1)
    ensures IsUint32(c1)
    ensures VerifyCrc(payload, c2) <==> c2 == c1
  {
  }

  /** `Protocol.pack` (`asciiOnly` false) and the `pack_message` copies in the server and the
      client (`asciiOnly` true, the `json.dumps` default): the header followed by the payload.
      `struct.pack` raises when the payload length does not fit in 32 bits. */
  function Pack(codec: Codec, data: Json, asciiOnly: bool): (r: Result<bytes, Failure>)
    ensures var p := codec.dumps(data, asciiOnly);
      && (r.Ok? <==> IsUint32(|p|))
      && (r.Ok? ==> |r.value| == HEADER_SIZE + |p| && r.value[HEADER_SIZE..] == p)
  {
    var payload := codec.dumps(data, asciiOnly);
    if !IsUint32(|payload|) then Err(StructError)
    else Ok(EncodeHeader(Header(|payload|, Crc32.Crc(payload))) + payload)
  }

  /** The header of a packed frame reads back as the payload's length and checksum, its first four
      bytes are the big-endian length, and the payload verifies against it. */
  lemma PackHeader(codec: Codec, data: Json, asciiOnly: bool)
    requires Pack(codec, data, asciiOnly).Ok?
    ensures var frame := Pack(codec, data, asciiOnly).value;
      var p := codec.dumps(data, asciiOnly);
      && frame[..4] == Uint32ToBE(|p|)
      && UnpackHeader(frame[..HEADER_SIZE]) == Ok(Header(|p|, Crc32.Crc(p)))
      && VerifyCrc(frame[HEADER_SIZE..], UnpackHeader(frame[..HEADER_SIZE]).value.crc)
  {
    var p := codec.dumps(data, asciiOnly);
    var h := Header(|p|, Crc32.Crc(p));
    var frame := Pack(codec, data, asciiOnly).value;
    assert frame[..HEADER_SIZE] == EncodeHeader(h);
    UnpackEncoded(h);
  }

  /** `json.loads(payload.decode('utf-8'))` where only JSONDecodeError is caught (becoming None);
      a UnicodeDecodeError is raised to the caller. */
  function ParseMessage(codec: Codec, payload: bytes): (r: Result<Option<Json>, Failure>)
    ensures r.Err? <==> codec.loads(payload).UnicodeDecodeError?
    ensures r == Ok(None) <==> codec.loads(payload).JsonDecodeError?
  {
    match codec.loads(payload)
    case Parsed(j) => Ok(Some(j))
    case JsonDecodeError => Ok(None)
    case UnicodeDecodeError => Err(UnicodeDecodeFailure)
  }

  /** With a lawful codec the payload of a packed frame parses back to the packed value. */
  lemma PackParse(codec: Codec, data: Json, asciiOnly: bool)
    requires Lawful(codec)
    requires Pack(codec, data, asciiOnly).Ok?
    ensures ParseMessage(codec, Pack(codec, data, asciiOnly).value[HEADER_SIZE..]) == Ok(Some(data))
  {
    assert codec.loads(codec.dumps(data, asciiOnly)) == Parsed(data);
  }

  /** `_recv_exact(n)` over what the peer will still send: exactly `n` bytes and the remainder,
      or None when the stream ends first. */
  function RecvExact(stream: bytes, n: nat): (r: Option<(bytes, bytes)>)
    ensures r.Some? <==> n <= |stream|
    ensures r.Some? ==> |r.value.0| == n && r.value.0 + r.value.1 == stream
  {
    if |stream| < n then None else Some((stream[..n], stream[n..]))
  }

  /** One pass of the read loops shared by the two servers and the client: the header, then the
      payload. The loop ends (`Closed`) when either read comes up short and also when the payload
      is empty, because `if not payload: break` treats `b''` as a failed read. */
  datatype FrameRead = Closed | Frame(header: Header, payload: bytes, rest: bytes)

  function ReadFrame(stream: bytes): (r: FrameRead)
    ensures r.Frame? ==>
      && ValidHeader(r.header)
      && r.header.length == |r.payload| > 0
      && stream == EncodeHeader(r.header) + r.payload + r.rest
    ensures r.Closed? <==>
      (|stream| < HEADER_SIZE
       || var n := BEToUint32(stream[..4]); n == 0 || |stream| < HEADER_SIZE + n)
  {
    match RecvExact(stream, HEADER_SIZE)
    case None => Closed
    case Some((hb, rest0)) =>
      assert hb[..4] == stream[..4];
      var h := UnpackHeader(hb).value;
      match RecvExact(rest0, h.length)
      case None => Closed
      case Some((payload, rest)) =>
        if |payload| == 0 then Closed
        else
          assert stream == hb + payload + rest;
          Frame(h, payload, rest)
  }

  /** A well-formed frame is read back whole, whatever follows it on the stream. */
  lemma ReadEncoded(h: Header, payload: bytes, rest: bytes)
    requires ValidHeader(h) && h.length == |payload| > 0
    ensures ReadFrame(EncodeHeader(h) + payload + rest) == Frame(h, payload, rest)
  {
    var s := EncodeHeader(h) + payload + rest;
    assert s[..HEADER_SIZE] == EncodeHeader(h);
    UnpackEncoded(h);
    assert s[HEADER_SIZE..] == payload + rest;
    assert (payload + rest)[..|payload|] == payload;
    assert (payload + rest)[|payload|..] == rest;
  }

  /** A packed frame is read back whole, whatever follows it on the stream. */
  lemma ReadPacked(codec: Codec, data: Json, asciiOnly: bool, rest: bytes)
    requires Lawful(codec)
    requires Pack(codec, data, asciiOnly).Ok?
    ensures var p := codec.dumps(data, asciiOnly);
      ReadFrame(Pack(codec, data, asciiOnly).value + rest)
        == Frame(Header(|p|, Crc32.Crc(p)), p, rest)
  {
    var p := codec.dumps(data, asciiOnly);
    var h := Header(|p|, Crc32.Crc(p));
    var frame := Pack(codec, data, asciiOnly).value;
    var stream := frame + rest;
    assert stream[..HEADER_SIZE] == EncodeHeader(h);
    UnpackEncoded(h);
    assert stream[HEADER_SIZE..] == p + rest;
    assert (p + rest)[..|p|] == p;
    assert (p + rest)[|p|..] == rest;
  }

  // ---------------------------------------------------------------------------------------------
  // The AI envelopes and their dictionary form

  /** `AIAnalysisRequest`; `context_snapshot` defaults to None. */
  datatype AIAnalysisRequest = AIAnalysisRequest(
    conversationId: string, senderId: string, senderName: string,
    contextSnapshot: Option<seq<Json>>)

  function AnalysisRequestToDict(x: AIAnalysisRequest): (r: Object)
    ensures Get(r, "type") == JStr(AiAnalysisRequest.Value())
    ensures Get(r, "context_snapshot") == JArr(if x.contextSnapshot.Some? then x.contextSnapshot.value else [])
  {
    map[
      "type" := JStr(AiAnalysisRequest.Value()),
      "conversation_id" := JStr(x.conversationId),
      "sender_id" := JStr(x.senderId),
      "sender_name" := JStr(x.senderName),
      "context_snapshot" := JArr(x.contextSnapshot.GetOr([]))]
  }

  /** Reads the dictionary form back. */
  function AnalysisRequestFromDict(d: Object): Option<AIAnalysisRequest> {
    if Get(d, "type") == JStr(AiAnalysisRequest.Value())
       && Get(d, "conversation_id").JStr? && Get(d, "sender_id").JStr?
       && Get(d, "sender_name").JStr? && Get(d, "context_snapshot").JArr?
    then Some(AIAnalysisRequest(d["conversation_id"].s, d["sender_id"].s, d["sender_name"].s,
                                Some(d["context_snapshot"].items)))
    else None
  }

  /** The dictionary form keeps every field, except that a missing snapshot is written as `[]`. */
  lemma AnalysisRequestRoundTrip(x: AIAnalysisRequest)
    ensures AnalysisRequestFromDict(AnalysisRequestToDict(x))
      == Some(x.(contextSnapshot := Some(x.contextSnapshot.GetOr([]))))
  {
  }

  /** `AISuggestion`; `suggestion_type` defaults to "suggestion". */
  datatype AISuggestion = AISuggestion(
    conversationId: string, title: string, content: string, suggestionType: string := "suggestion")

  function SuggestionToDict(x: AISuggestion): (r: Object)
    ensures Get(r, "type") == JStr(AiSuggestion.Value())
  {
    map[
      "type" := JStr(AiSuggestion.Value()),
      "conversation_id" := JStr(x.conversationId),
      "title" := JStr(x.title),
      "content" := JStr(x.content),
      "suggestion_type" := JStr(x.suggestionType)]
  }

  function SuggestionFromDict(d: Object): Option<AISuggestion> {
    if Get(d, "type") == JStr(AiSuggestion.Value())
       && Get(d, "conversation_id").JStr? && Get(d, "title").JStr?
       && Get(d, "content").JStr? && Get(d, "suggestion_type").JStr?
    then Some(AISuggestion(d["conversation_id"].s, d["title"].s, d["content"].s,
                           d["suggestion_type"].s))
    else None
  }

  /** The dictionary form keeps every field; a suggestion built without a type says "suggestion". */
  lemma SuggestionRoundTrip(x: AISuggestion)
    ensures SuggestionFromDict(SuggestionToDict(x)) == Some(x)
    ensures Get(SuggestionToDict(AISuggestion(x.conversationId, x.title, x.content)), "suggestion_type")
      == JStr("suggestion")
  {
  }

  /** `AIEmotion`: the scores are floats, modelled as reals. */
  datatype AIEmotion = AIEmotion(conversationId: string, scores: map<string, real>)

  function ScoresToJson(scores: map<string, real>): Json {
    JObj(map k | k in scores :: JFloat(scores[k]))
  }

  function ScoresFromJson(j: Json): Option<map<string, real>> {
    if j.JObj? && forall k | k in j.fields :: j.fields[k].JFloat?
    then Some(map k | k in j.fields :: j.fields[k].r)
    else None
  }

  function EmotionToDict(x: AIEmotion): (r: Object)
    ensures Get(r, "type") == JStr(AiEmotion.Value())
  {
    map[
      "type" := JStr(AiEmotion.Value()),
      "conversation_id" := JStr(x.conversationId),
      "scores" := ScoresToJson(x.scores)]
  }

  function EmotionFromDict(d: Object): Option<AIEmotion> {
    if Get(d, "type") == JStr(AiEmotion.Value()) && Get(d, "conversation_id").JStr?
       && ScoresFromJson(Get(d, "scores")).Some?
    then Some(AIEmotion(d["conversation_id"].s, ScoresFromJson(d["scores"]).value))
    else None
  }

  lemma EmotionRoundTrip(x: AIEmotion)
    ensures EmotionFromDict(EmotionToDict(x)) == Some(x)
  {
    var j := ScoresToJson(x.scores);
    assert ScoresFromJson(j).Some?;
    assert ScoresFromJson(j).value == x.scores;
  }

  /** `AIMemory`: a list of string-to-string dictionaries. */
  datatype AIMemory = AIMemory(conversationId: string, memories: seq<map<string, string>>)

  function StrMapToJson(m: map<string, string>): Json {
    JObj(map k | k in m :: JStr(m[k]))
  }

  function StrMapFromJson(j: Json): Option<map<string, string>> {
    if j.JObj? && forall k | k in j.fields :: j.fields[k].JStr?
    then Some(map k | k in j.fields :: j.fields[k].s)
    else None
  }

  lemma StrMapRoundTrip(m: map<string, string>)
    ensures StrMapFromJson(StrMapToJson(m)) == Some(m)
  {
    var j := StrMapToJson(m);
    assert StrMapFromJson(j).Some?;
    assert StrMapFromJson(j).value == m;
  }

  function MemoriesToJson(ms: seq<map<string, string>>): (r: Json)
    ensures r.JArr? && |r.items| == |ms|
    ensures forall i :: 0 <= i < |ms| ==> r.items[i] == StrMapToJson(ms[i])
  {
    JArr(seq(|ms|, i requires 0 <= i < |ms| => StrMapToJson(ms[i])))
  }

  function MemoriesFromItems(items: seq<Json>): Option<seq<map<string, string>>>
    decreases |items|
  {
    if items == [] then Some([])
    else match (StrMapFromJson(items[0]), MemoriesFromItems(items[1..]))
      case (Some(m), Some(ms)) => Some([m] + ms)
      case _ => None
  }

  lemma {:induction false} MemoriesRoundTrip(ms: seq<map<string, string>>)
    ensures MemoriesFromItems(MemoriesToJson(ms).items) == Some(ms)
    decreases |ms|
  {
    if ms != [] {
      var items := MemoriesToJson(ms).items;
      assert items[1..] == MemoriesToJson(ms[1..]).items;
      StrMapRoundTrip(ms[0]);
      MemoriesRoundTrip(ms[1..]);
      assert [ms[0]] + ms[1..] == ms;
    }
  }

  function MemoryToDict(x: AIMemory): (r: Object)
    ensures Get(r, "type") == JStr(AiMemory.Value())
  {
    map[
      "type" := JStr(AiMemory.Value()),
      "conversation_id" := JStr(x.conversationId),
      "memories" := MemoriesToJson(x.memories)]
  }

  function MemoryFromDict(d: Object): Option<AIMemory> {
    if Get(d, "type") == JStr(AiMemory.Value()) && Get(d, "conversation_id").JStr?
       && Get(d, "memories").JArr? && MemoriesFromItems(d["memories"].items).Some?
    then Some(AIMemory(d["conversation_id"].s, MemoriesFromItems(d["memories"].items).value))
    else None
  }

  lemma MemoryRoundTrip(x: AIMemory)
    ensures MemoryFromDict(MemoryToDict(x)) == Some(x)
  {
    MemoriesRoundTrip(x.memories);
  }
}
