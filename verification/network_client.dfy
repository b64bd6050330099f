/** The client's connection manager (core/network.py): sends gated on the connected state, the
    registration sent on connect, the receive loop over the framed stream, and the dispatch of
    incoming envelopes to the application's signals. */
module NetworkClient {
  import opened Wrappers
  import opened Bytes
  import opened JsonValues
  import opened Protocol

  /** `socket` is reduced to whether one is set; `running` is the loop flag. */
  datatype Client = Client(hasSocket: bool, running: bool, userId: string, userName: string, avatar: string)

  /** The signals the manager emits, with the values handed to them. */
  datatype Event =
    | Connected
    | Disconnected
    | ConnectionError
    | MessageReceived(senderId: Json, senderName: Json, content: Json, target: Json, senderAvatar: Json)
    | Joined(userId: Json, userName: Json, avatar: Json)
    | Left(userId: Json)
    | OnlineUsersReceived(users: Json)
    | TypingStatusReceived(userId: Json, userName: Json, isTyping: Json)

  /** `disconnect`: the flag drops, the socket is closed and forgotten, and `disconnected` fires. */
  function Disconnect(c: Client): (r: (Client, Event))
    ensures !r.0.running && !r.0.hasSocket
    ensures r.0.userId == c.userId && r.0.userName == c.userName && r.0.avatar == c.avatar
    ensures r.1 == Disconnected
  {
    (c.(running := false, hasSocket := false), Disconnected)
  }

  /** What one call to `_send_message` did: the client afterwards, the bytes put on the wire, and the
      signals emitted. */
  datatype Sent = Sent(client: Client, wire: Option<bytes>, events: seq<Event>)

  /** `_send_message`. `sendOk` is whether `sendall` succeeds; a payload too long to frame and a
      failed send both end in `disconnect`. */
  function SendMessage(codec: Codec, c: Client, message: Object, sendOk: bool): (r: Sent)
    ensures !c.hasSocket || !c.running ==> r == Sent(c, None, [])
    ensures r.wire.Some? <==> c.hasSocket && c.running && sendOk && Pack(codec, JObj(message), true).Ok?
    ensures r.wire.Some? ==> Pack(codec, JObj(message), true) == Ok(r.wire.value) && r.client == c
    ensures c.hasSocket && c.running && r.wire.None? ==> r == Sent(Disconnect(c).0, None, [Disconnected])
  {
    if !c.hasSocket || !c.running then Sent(c, None, [])
    else
      match Pack(codec, JObj(message), true)
      case Ok(packet) =>
        if sendOk then Sent(c, Some(packet), [])
        else var (c', e) := Disconnect(c); Sent(c', None, [e])
      case Err(_) => var (c', e) := Disconnect(c); Sent(c', None, [e])
  }

  /** The `register` envelope sent right after connecting. */
  function RegisterEnvelope(c: Client): (e: Object)
    ensures e.Keys == {"type", "user_id", "user_name", "avatar"} && Get(e, "type") == JStr("register")
  {
    map["type" := JStr("register"), "user_id" := JStr(c.userId), "user_name" := JStr(c.userName),
        "avatar" := JStr(c.avatar)]
  }

  /** `send_chat_message`'s envelope. */
  function ChatEnvelope(c: Client, target: string, content: string): (e: Object)
    ensures e.Keys == {"type", "sender_id", "sender_name", "sender_avatar", "target", "content"}
    ensures Get(e, "type") == JStr("chat_message")
  {
    map["type" := JStr("chat_message"), "sender_id" := JStr(c.userId), "sender_name" := JStr(c.userName),
        "sender_avatar" := JStr(c.avatar), "target" := JStr(target), "content" := JStr(content)]
  }

  /** `send_typing_status`'s envelope. */
  function TypingEnvelope(c: Client, isTyping: bool): (e: Object)
    ensures e.Keys == {"type", "sender_id", "sender_name", "is_typing"} && Get(e, "type") == JStr("typing_status")
  {
    map["type" := JStr("typing_status"), "sender_id" := JStr(c.userId), "sender_name" := JStr(c.userName),
        "is_typing" := JBool(isTyping)]
  }

  /** `_connect_thread`. `connectOk` is whether the TCP connect succeeds and `sendOk` whether the
      registration's `sendall` does. On failure the socket object stays set but the flag is down. */
  function Connect(codec: Codec, c: Client, connectOk: bool, sendOk: bool): (r: Sent)
    ensures r.client.hasSocket == (!connectOk || r.wire.Some?)
    ensures !connectOk ==> r == Sent(c.(hasSocket := true, running := false), None, [ConnectionError])
    ensures connectOk ==> Last(r.events) == Some(Connected)
    ensures r.wire.Some? ==> r.client.running && Pack(codec, JObj(RegisterEnvelope(c)), true) == Ok(r.wire.value)
  {
    var c1 := c.(hasSocket := true);
    if !connectOk then Sent(c1.(running := false), None, [ConnectionError])
    else
      var s := SendMessage(codec, c1.(running := true), RegisterEnvelope(c), sendOk);
      Sent(s.client, s.wire, s.events + [Connected])
  }

  function Last(s: seq<Event>): Option<Event> {
    if s == [] then None else Some(s[|s| - 1])
  }

  /** The server reads the registration back as the envelope carrying the user's id, name and avatar. */
  lemma ConnectRegisters(codec: Codec, c: Client, rest: bytes)
    requires Lawful(codec)
    requires Connect(codec, c, true, true).wire.Some?
    ensures var f := ReadFrame(Connect(codec, c, true, true).wire.value + rest);
      && f.Frame? && f.rest == rest && VerifyCrc(f.payload, f.header.crc)
      && codec.loads(f.payload) == Parsed(JObj(RegisterEnvelope(c)))
      && Get(RegisterEnvelope(c), "user_id") == JStr(c.userId)
  {
    ReadPacked(codec, JObj(RegisterEnvelope(c)), true, rest);
  }

  /** The signal `_handle_message` builds for an envelope, with the defaults the code supplies, or
      None when the type asks for none. */
  function Signal(ownId: string, m: Object): (r: Option<Event>)
    ensures r.Some? ==> Get(m, "type").JStr?
  {
    var t := Get(m, "type");
    if t == JStr("chat_message") then
      Some(MessageReceived(GetOr(m, "sender_id", JStr("")), GetOr(m, "sender_name", JStr("Unknown")),
                           GetOr(m, "content", JStr("")), GetOr(m, "target", JStr("public")),
                           GetOr(m, "sender_avatar", JStr(""))))
    else if t == JStr("user_joined") then
      Some(Joined(GetOr(m, "user_id", JStr("")), GetOr(m, "user_name", JStr("Unknown")), GetOr(m, "avatar", JStr(""))))
    else if t == JStr("user_left") then
      Some(Left(GetOr(m, "user_id", JStr(""))))
    else if t == JStr("online_users") then
      Some(OnlineUsersReceived(GetOr(m, "users", JArr([]))))
    else if t == JStr("typing_status") then
      var senderId := GetOr(m, "sender_id", JStr(""));
      if senderId != JStr(ownId) then
        Some(TypingStatusReceived(senderId, GetOr(m, "sender_name", JStr("Someone")), GetOr(m, "is_typing", JBool(false))))
      else None
    else None
  }

  /** Whether the values fit the types the signal was declared with (`str`, `list`, `bool`); `emit`
      raises TypeError otherwise. */
  predicate SignalAccepts(e: Event) {
    match e
    case MessageReceived(senderId, senderName, content, target, senderAvatar) =>
      senderId.JStr? && senderName.JStr? && content.JStr? && target.JStr? && senderAvatar.JStr?
    case Joined(userId, userName, avatar) => userId.JStr? && userName.JStr? && avatar.JStr?
    case Left(userId) => userId.JStr?
    case OnlineUsersReceived(users) => users.JArr?
    case TypingStatusReceived(userId, userName, isTyping) => userId.JStr? && userName.JStr? && isTyping.JBool?
    case _ => true
  }

  /** What `_handle_message` did: fired a signal, fired none, or raised from `emit`. */
  datatype Handled = Emitted(event: Event) | Ignored | Raised

  /** `_handle_message`. */
  function HandleMessage(ownId: string, m: Object): (r: Handled)
    ensures r != Ignored ==> Get(m, "type") in [JStr("chat_message"), JStr("user_joined"), JStr("user_left"),
                                                 JStr("online_users"), JStr("typing_status")]
    ensures r.Emitted? ==> SignalAccepts(r.event)
    ensures r.Raised? <==> Signal(ownId, m).Some? && !SignalAccepts(Signal(ownId, m).value)
  {
    match Signal(ownId, m)
    case None => Ignored
    case Some(e) => if SignalAccepts(e) then Emitted(e) else Raised
  }

  /** A bare chat envelope is shown as from "Unknown", addressed to "public", with empty strings elsewhere. */
  lemma ChatDefaults(ownId: string)
    ensures HandleMessage(ownId, map["type" := JStr("chat_message")])
      == Emitted(MessageReceived(JStr(""), JStr("Unknown"), JStr(""), JStr("public"), JStr("")))
  {
  }

  /** A chat sent by one client is shown by another with exactly the fields the sender filled in. */
  lemma ChatDelivered(sender: Client, ownId: string, target: string, content: string)
    ensures HandleMessage(ownId, ChatEnvelope(sender, target, content))
      == Emitted(MessageReceived(JStr(sender.userId), JStr(sender.userName), JStr(content), JStr(target), JStr(sender.avatar)))
  {
  }

  /** A typing envelope is shown exactly when it comes from someone else. */
  lemma TypingShownIffOther(sender: Client, ownId: string, isTyping: bool)
    ensures HandleMessage(ownId, TypingEnvelope(sender, isTyping)).Emitted? <==> sender.userId != ownId
    ensures sender.userId != ownId ==>
      HandleMessage(ownId, TypingEnvelope(sender, isTyping))
        == Emitted(TypingStatusReceived(JStr(sender.userId), JStr(sender.userName), JBool(isTyping)))
  {
  }

  /** Types other than the five the client knows fire nothing. */
  lemma UnknownIgnored(ownId: string, m: Object)
    requires Get(m, "type") !in [JStr("chat_message"), JStr("user_joined"), JStr("user_left"),
                                 JStr("online_users"), JStr("typing_status")]
    ensures HandleMessage(ownId, m) == Ignored
  {
  }

  /** A chat whose present field is not a string, a user list that is not a list, or a typing flag
      that is not a boolean makes `emit` raise. */
  lemma WrongTypeRaises(ownId: string, m: Object)
    requires || (Get(m, "type") == JStr("chat_message")
                 && exists k :: k in ["sender_id", "sender_name", "content", "target", "sender_avatar"]
                                && k in m && !m[k].JStr?)
             || (Get(m, "type") == JStr("online_users") && "users" in m && !m["users"].JArr?)
             || (Get(m, "type") == JStr("typing_status") && Get(m, "sender_id") != JStr(ownId)
                 && "sender_id" in m && "is_typing" in m && !m["is_typing"].JBool?)
    ensures HandleMessage(ownId, m) == Raised
  {
  }

  /** `_receive_loop`, entered with the flag up and a socket set: frames are read until a read fails
      or the stream is bad; then the flag drops (the socket stays set) and `disconnected` fires. A bad
      checksum and a JSONDecodeError skip the frame; a UnicodeDecodeError, a non-object payload
      (`message.get` raising AttributeError) and a signal refusing its values end the loop. */
  function ReceiveLoop(codec: Codec, c: Client, stream: bytes): (r: (Client, seq<Event>))
    ensures r.0 == c.(running := false)
    ensures Last(r.1) == Some(Disconnected)
    decreases |stream|
  {
    if !c.running || !c.hasSocket then (c.(running := false), [Disconnected])
    else
      match ReadFrame(stream)
      case Closed => (c.(running := false), [Disconnected])
      case Frame(h, payload, rest) =>
        if !VerifyCrc(payload, h.crc) then ReceiveLoop(codec, c, rest)
        else
          match codec.loads(payload)
          case JsonDecodeError => ReceiveLoop(codec, c, rest)
          case UnicodeDecodeError => (c.(running := false), [Disconnected])
          case Parsed(j) =>
            if !j.JObj? then (c.(running := false), [Disconnected])
            else
              match HandleMessage(c.userId, j.fields)
              case Raised => (c.(running := false), [Disconnected])
              case Ignored => ReceiveLoop(codec, c, rest)
              case Emitted(e) =>
                var next := ReceiveLoop(codec, c, rest);
                (next.0, [e] + next.1)
  }

  /** A frame whose checksum does not match is skipped and the loop carries on with what follows. */
  lemma CrcMismatchSkipped(codec: Codec, c: Client, h: Header, payload: bytes, rest: bytes)
    requires c.running && c.hasSocket
    requires ValidHeader(h) && h.length == |payload| > 0
    requires !VerifyCrc(payload, h.crc)
    ensures ReceiveLoop(codec, c, EncodeHeader(h) + payload + rest) == ReceiveLoop(codec, c, rest)
  {
    ReadEncoded(h, payload, rest);
  }

  /** A stream that ends inside a header or a payload ends the loop with nothing dispatched. */
  lemma ShortReadEnds(codec: Codec, c: Client, stream: bytes)
    requires ReadFrame(stream).Closed?
    ensures ReceiveLoop(codec, c, stream) == (c.(running := false), [Disconnected])
  {
  }

  /** What one client sends, the other dispatches: a packed envelope is handled as it was sent, and
      one whose values a signal refuses ends the loop. */
  lemma PackedDispatched(codec: Codec, c: Client, m: Object, rest: bytes)
    requires Lawful(codec)
    requires c.running && c.hasSocket
    requires Pack(codec, JObj(m), true).Ok?
    ensures var out := ReceiveLoop(codec, c, Pack(codec, JObj(m), true).value + rest).1;
      match HandleMessage(c.userId, m)
      case Emitted(e) => out == [e] + ReceiveLoop(codec, c, rest).1
      case Ignored => out == ReceiveLoop(codec, c, rest).1
      case Raised => out == [Disconnected]
  {
    ReadPacked(codec, JObj(m), true, rest);
    var p := codec.dumps(JObj(m), true);
    assert VerifyCrc(p, Crc32.Crc(p));
  }
}
